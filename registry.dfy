/**
 * The command table every revision hands to urfave/cli: each command has a
 * name, aliases, possibly named subcommands, and the handler it runs. The
 * table is sorted by name with sort.Sort(cli.CommandsByName(...)) before the
 * REPL starts, and a command token is looked up by name or alias.
 */
module Registry {
  import opened Wrappers

  datatype Subcommand<A> = Subcommand(name: string, action: A)

  datatype Command<A> = Command(name: string, aliases: seq<string>, subcommands: seq<Subcommand<A>>, action: A)

  /** The name followed by the aliases: every token that selects the command. */
  function Names<A>(c: Command<A>): seq<string>
  {
    [c.name] + c.aliases
  }

  /** cli.Command.HasName. */
  predicate HasName<A>(c: Command<A>, token: string)
  {
    token in Names(c)
  }

  predicate NoDuplicates<T(==)>(s: seq<T>)
  {
    forall i, j :: 0 <= i < j < |s| ==> s[i] != s[j]
  }

  predicate Disjoint(a: seq<string>, b: seq<string>)
  {
    forall n :: n in a ==> n !in b
  }

  function SubcommandNames<A>(c: Command<A>): (r: seq<string>)
    ensures |r| == |c.subcommands|
    ensures forall i :: 0 <= i < |r| ==> r[i] == c.subcommands[i].name
  {
    seq(|c.subcommands|, i requires 0 <= i < |c.subcommands| => c.subcommands[i].name)
  }

  /** No token selects two commands, no command lists a token twice, and subcommand names are distinct. */
  predicate UniqueNames<A>(t: seq<Command<A>>)
  {
    && (forall i :: 0 <= i < |t| ==> NoDuplicates(Names(t[i])) && NoDuplicates(SubcommandNames(t[i])))
    && (forall i, j :: 0 <= i < j < |t| ==> Disjoint(Names(t[i]), Names(t[j])))
  }

  /** Go's a < b on strings; for code points the UTF-8 byte order is the code point order. */
  predicate Less(a: string, b: string)
    decreases |a|
  {
    if a == [] then b != []
    else if b == [] then false
    else if a[0] != b[0] then a[0] < b[0]
    else Less(a[1..], b[1..])
  }

  lemma {:induction false} LessIrreflexive(a: string)
    ensures !Less(a, a)
    decreases |a|
  {
    if a != [] { LessIrreflexive(a[1..]); }
  }

  lemma {:induction false} LessTransitive(a: string, b: string, c: string)
    requires Less(a, b) && Less(b, c)
    ensures Less(a, c)
    decreases |a|
  {
    if a != [] && b != [] && c != [] && a[0] == b[0] && b[0] == c[0] {
      LessTransitive(a[1..], b[1..], c[1..]);
    }
  }

  /** Of two different strings one is the smaller. */
  lemma {:induction false} LessTotal(a: string, b: string)
    requires a != b
    ensures Less(a, b) || Less(b, a)
    decreases |a|
  {
    if a != [] && b != [] && a[0] == b[0] {
      assert a == [a[0]] + a[1..] && b == [b[0]] + b[1..];
      LessTotal(a[1..], b[1..]);
    }
  }

  lemma LessAsymmetric(a: string, b: string)
    requires Less(a, b)
    ensures !Less(b, a)
  {
    if Less(b, a) {
      LessTransitive(a, b, a);
      LessIrreflexive(a);
    }
  }

  /** Nondecreasing by name, as CommandsByName orders the table. */
  predicate SortedByName<A>(t: seq<Command<A>>)
  {
    forall i, j :: 0 <= i < j < |t| ==> !Less(t[j].name, t[i].name)
  }

  /** Neighbours in order are enough for the whole table to be in order. */
  lemma {:induction false} SortedFromNeighbours<A>(t: seq<Command<A>>)
    requires forall i :: 0 < i < |t| ==> Less(t[i - 1].name, t[i].name)
    ensures SortedByName(t)
    decreases |t|
  {
    if |t| > 1 {
      SortedFromNeighbours(t[1..]);
      forall j | 0 < j < |t| ensures Less(t[0].name, t[j].name) {
        ChainLess(t, j);
      }
      forall i, j | 0 <= i < j < |t| ensures !Less(t[j].name, t[i].name) {
        if i == 0 {
          LessAsymmetric(t[0].name, t[j].name);
        } else {
          assert t[1..][i - 1] == t[i] && t[1..][j - 1] == t[j];
        }
      }
    }
  }

  lemma {:induction false} ChainLess<A>(t: seq<Command<A>>, j: nat)
    requires forall i :: 0 < i < |t| ==> Less(t[i - 1].name, t[i].name)
    requires 0 < j < |t|
    ensures Less(t[0].name, t[j].name)
    decreases j
  {
    if j > 1 {
      ChainLess(t, j - 1);
      LessTransitive(t[0].name, t[j - 1].name, t[j].name);
    }
  }

  /** Inserts c into a table sorted by name, before the first command whose name is not smaller. */
  function Insert<A>(c: Command<A>, t: seq<Command<A>>): (r: seq<Command<A>>)
    requires SortedByName(t)
    ensures SortedByName(r)
    ensures multiset(r) == multiset(t) + multiset{c}
    ensures |r| == |t| + 1
    ensures forall x :: x in r ==> x == c || x in t
  {
    if t == [] then [c]
    else if !Less(t[0].name, c.name) then
      NoneBelow(c, t);
      assert forall j :: 0 <= j < |t| ==> ([c] + t)[j + 1] == t[j];
      [c] + t
    else
      var rest := Insert(c, t[1..]);
      AllAbove(c, t, rest);
      assert t == [t[0]] + t[1..];
      var r := [t[0]] + rest;
      assert forall j :: 0 < j < |r| ==> r[j] == rest[j - 1] && r[j] in rest;
      r
  }

  /** c placed before a sorted table whose head is not smaller: no command of the table is smaller than c. */
  lemma NoneBelow<A>(c: Command<A>, t: seq<Command<A>>)
    requires SortedByName(t) && t != [] && !Less(t[0].name, c.name)
    ensures forall j :: 0 <= j < |t| ==> !Less(t[j].name, c.name)
  {
    forall j | 0 <= j < |t| ensures !Less(t[j].name, c.name) {
      if j > 0 && Less(t[j].name, c.name) {
        if t[0].name == t[j].name {
        } else {
          LessTotal(t[0].name, t[j].name);
          LessTransitive(t[0].name, t[j].name, c.name);
        }
      }
    }
  }

  /** What goes after the head of a sorted table, the inserted c among it, is not smaller than the head. */
  lemma AllAbove<A>(c: Command<A>, t: seq<Command<A>>, rest: seq<Command<A>>)
    requires SortedByName(t) && t != [] && Less(t[0].name, c.name)
    requires forall x :: x in rest ==> x == c || x in t[1..]
    ensures forall x :: x in rest ==> !Less(x.name, t[0].name)
  {
    forall x | x in rest ensures !Less(x.name, t[0].name) {
      if x == c {
        LessAsymmetric(t[0].name, c.name);
      } else {
        var k :| 0 <= k < |t[1..]| && t[1..][k] == x;
        assert t[k + 1] == x;
      }
    }
  }

  /** The table in CommandsByName order: a sorted permutation of t (insertion sort stands in for sort.Sort). */
  function SortByName<A>(t: seq<Command<A>>): (r: seq<Command<A>>)
    ensures SortedByName(r)
    ensures multiset(r) == multiset(t)
    decreases |t|
  {
    if t == [] then []
    else
      assert t == [t[0]] + t[1..];
      Insert(t[0], SortByName(t[1..]))
  }

  /** Two commands of the table with the same name are the same command. */
  ghost predicate NamesIdentify<A>(t: seq<Command<A>>)
  {
    forall x, y :: x in t && y in t && x.name == y.name ==> x == y
  }

  lemma UniqueNamesIdentify<A>(t: seq<Command<A>>)
    requires UniqueNames(t)
    ensures NamesIdentify(t)
  {
    forall x, y | x in t && y in t && x.name == y.name ensures x == y {
      var i :| 0 <= i < |t| && t[i] == x;
      var j :| 0 <= j < |t| && t[j] == y;
      assert x.name in Names(t[i]) && x.name in Names(t[j]);
      assert i == j;
    }
  }

  /** Rearranging the table keeps commands identified by their names. */
  lemma IdentifyPermutation<A>(a: seq<Command<A>>, b: seq<Command<A>>)
    requires multiset(a) == multiset(b)
    requires NamesIdentify(a)
    ensures NamesIdentify(b)
  {
    SameMembers(a, b);
  }

  /**
   * When a name identifies its command, a table has exactly one sorted
   * permutation, so the result does not depend on which sorting algorithm
   * produced it, and sort.Sort not being stable does not matter.
   */
  lemma {:induction false} SortedPermutationUnique<A>(a: seq<Command<A>>, b: seq<Command<A>>)
    requires SortedByName(a) && SortedByName(b)
    requires multiset(a) == multiset(b)
    requires NamesIdentify(a)
    ensures a == b
    decreases |a|
  {
    if a == [] {
      assert |b| == |multiset(b)| == 0;
    } else {
      HeadsAgree(a, b);
      TailMultiset(a, b);
      TailSorted(a);
      TailSorted(b);
      assert forall x :: x in a[1..] ==> x in a;
      SortedPermutationUnique(a[1..], b[1..]);
      assert a == [a[0]] + a[1..] && b == [b[0]] + b[1..];
    }
  }

  /** A table already in strict name order with unique names is what sorting produces. */
  lemma SortKeepsSorted<A>(t: seq<Command<A>>)
    requires forall i :: 0 < i < |t| ==> Less(t[i - 1].name, t[i].name)
    requires UniqueNames(t)
    ensures SortByName(t) == t
  {
    SortedFromNeighbours(t);
    UniqueNamesIdentify(t);
    SortedPermutationUnique(t, SortByName(t));
  }

  /** Any table with unique names sorts to the sorted rearrangement given for it. */
  lemma SortIsArrangement<A>(t: seq<Command<A>>, sorted: seq<Command<A>>)
    requires forall i :: 0 < i < |sorted| ==> Less(sorted[i - 1].name, sorted[i].name)
    requires multiset(sorted) == multiset(t)
    requires UniqueNames(t)
    ensures SortByName(t) == sorted
  {
    SortedFromNeighbours(sorted);
    UniqueNamesIdentify(t);
    IdentifyPermutation(t, sorted);
    SortedPermutationUnique(sorted, SortByName(t));
  }

  lemma HeadsAgree<A>(a: seq<Command<A>>, b: seq<Command<A>>)
    requires SortedByName(a) && SortedByName(b)
    requires multiset(a) == multiset(b)
    requires NamesIdentify(a) && a != []
    ensures b != [] && a[0] == b[0]
  {
    assert a[0] in multiset(b);
    var k :| 0 <= k < |b| && b[k] == a[0];
    assert b[0] in multiset(a);
    var j :| 0 <= j < |a| && a[j] == b[0];
    if j != 0 {
      assert !Less(a[j].name, a[0].name);
      if k != 0 { assert !Less(b[k].name, b[0].name); }
      if a[0].name != a[j].name { LessTotal(a[0].name, a[j].name); }
    }
    assert a[0].name == a[j].name;
  }

  lemma TailMultiset<T>(a: seq<T>, b: seq<T>)
    requires a != [] && b != [] && a[0] == b[0]
    requires multiset(a) == multiset(b)
    ensures multiset(a[1..]) == multiset(b[1..])
  {
    assert a == [a[0]] + a[1..] && b == [b[0]] + b[1..];
    assert multiset(a[1..]) == multiset(a) - multiset{a[0]};
    assert multiset(b[1..]) == multiset(b) - multiset{b[0]};
  }

  lemma TailSorted<A>(a: seq<Command<A>>)
    requires a != [] && SortedByName(a)
    ensures SortedByName(a[1..])
  {
    forall i, i' | 0 <= i < i' < |a[1..]| ensures !Less(a[1..][i'].name, a[1..][i].name) {
      assert a[1..][i] == a[i + 1] && a[1..][i'] == a[i' + 1];
    }
  }

  /** App.Command: the first command of the table that has the token as name or alias. */
  function Lookup<A>(t: seq<Command<A>>, token: string): (r: Option<Command<A>>)
    ensures r.Some? ==> r.value in t && HasName(r.value, token)
    ensures r.None? <==> forall c :: c in t ==> !HasName(c, token)
  {
    if t == [] then None
    else if HasName(t[0], token) then Some(t[0])
    else Lookup(t[1..], token)
  }

  lemma LookupMissing<A>(t: seq<Command<A>>, token: string)
    requires forall i :: 0 <= i < |t| ==> !HasName(t[i], token)
    ensures Lookup(t, token) == None
  {
    forall c | c in t ensures !HasName(c, token) {
      var i :| 0 <= i < |t| && t[i] == c;
    }
  }

  /** Under unique names, every name and alias of a command leads to that command. */
  lemma LookupFindsOwner<A>(t: seq<Command<A>>, c: Command<A>, token: string)
    requires UniqueNames(t)
    requires c in t && HasName(c, token)
    ensures Lookup(t, token) == Some(c)
  {
    var found := Lookup(t, token).value;
    var i :| 0 <= i < |t| && t[i] == c;
    var j :| 0 <= j < |t| && t[j] == found;
    assert token in Names(t[i]) && token in Names(t[j]);
    assert i == j;
  }

  lemma SameMembers<T>(s: seq<T>, t: seq<T>)
    requires multiset(s) == multiset(t)
    ensures forall c :: c in s <==> c in t
  {
    forall c ensures c in s <==> c in t {
      assert c in s <==> c in multiset(s);
      assert c in t <==> c in multiset(t);
    }
  }

  /** Sorting the table does not change which command a token selects. */
  lemma SortKeepsLookup<A>(t: seq<Command<A>>, token: string)
    requires UniqueNames(t)
    ensures Lookup(SortByName(t), token) == Lookup(t, token)
  {
    var s := SortByName(t);
    SameMembers(s, t);
    if Lookup(s, token).Some? {
      LookupFindsOwner(t, Lookup(s, token).value, token);
    }
  }

  /** The command app.Run selects for a token once the table has been sorted. */
  function Find<A>(t: seq<Command<A>>, token: string): (r: Option<Command<A>>)
    ensures r.Some? ==> r.value in t && HasName(r.value, token)
    ensures r.None? <==> forall c :: c in t ==> !HasName(c, token)
  {
    SameMembers(SortByName(t), t);
    Lookup(SortByName(t), token)
  }

  lemma FindMissing<A>(t: seq<Command<A>>, token: string)
    requires forall c :: c in t ==> !HasName(c, token)
    ensures Find(t, token) == None
  {
  }
}
