/**
 * Field splitting as Go's strings.FieldsFunc performs it: the input is scanned
 * once, left to right, and every maximal run of runes that are not separators
 * becomes one field. Here the separator decision is given as a mask, one bit
 * per rune, so that the same splitter serves the stateless strings.Fields and
 * the stateful quote-aware tokenizer.
 */
module Fields {

  /** Emits the current field, if it is not empty. */
  function Flush(cur: string, acc: seq<string>): seq<string>
  {
    if cur == [] then acc else acc + [cur]
  }

  /** The scan of FieldsFunc: `cur` is the field being built and `acc` holds the fields already emitted. */
  function Collect(s: string, sep: seq<bool>, cur: string, acc: seq<string>): seq<string>
    requires |sep| == |s|
    decreases |s|
  {
    if s == [] then Flush(cur, acc)
    else if sep[0] then Collect(s[1..], sep[1..], [], Flush(cur, acc))
    else Collect(s[1..], sep[1..], cur + [s[0]], acc)
  }

  /** The fields of s under the separator mask sep. */
  function Split(s: string, sep: seq<bool>): seq<string>
    requires |sep| == |s|
  {
    Collect(s, sep, [], [])
  }

  /** The runes of s at the positions that are not separators, in order. */
  function Kept(s: string, sep: seq<bool>): string
    requires |sep| == |s|
  {
    if s == [] then [] else (if sep[0] then [] else [s[0]]) + Kept(s[1..], sep[1..])
  }

  function Concat(ts: seq<string>): string
  {
    if ts == [] then [] else Concat(ts[..|ts| - 1]) + ts[|ts| - 1]
  }

  predicate NoEmptyField(ts: seq<string>)
  {
    forall i :: 0 <= i < |ts| ==> ts[i] != []
  }

  /** A mask with no separator at all. */
  predicate NoSeparator(sep: seq<bool>)
  {
    forall i :: 0 <= i < |sep| ==> !sep[i]
  }

  lemma ConcatAppend(ts: seq<string>, t: string)
    ensures Concat(ts + [t]) == Concat(ts) + t
  {
    assert (ts + [t])[..|ts|] == ts;
  }

  lemma FlushConcat(cur: string, acc: seq<string>)
    ensures Concat(Flush(cur, acc)) == Concat(acc) + cur
  {
    if cur != [] { ConcatAppend(acc, cur); }
  }

  /** The emitted fields, read in order, spell out the kept runes. */
  lemma {:induction false} CollectConcat(s: string, sep: seq<bool>, cur: string, acc: seq<string>)
    requires |sep| == |s|
    ensures Concat(Collect(s, sep, cur, acc)) == Concat(acc) + cur + Kept(s, sep)
    decreases |s|, 1
  {
    if s == [] {
      FlushConcat(cur, acc);
    } else if sep[0] {
      ConcatAtSeparator(s, sep, cur, acc);
    } else {
      ConcatInField(s, sep, cur, acc);
    }
  }

  lemma {:induction false} ConcatAtSeparator(s: string, sep: seq<bool>, cur: string, acc: seq<string>)
    requires |sep| == |s| && s != [] && sep[0]
    ensures Concat(Collect(s, sep, cur, acc)) == Concat(acc) + cur + Kept(s, sep)
    decreases |s|, 0
  {
    var flushed := Flush(cur, acc);
    assert Collect(s, sep, cur, acc) == Collect(s[1..], sep[1..], [], flushed);
    assert Kept(s, sep) == Kept(s[1..], sep[1..]);
    CollectConcat(s[1..], sep[1..], [], flushed);
    FlushConcat(cur, acc);
  }

  lemma {:induction false} ConcatInField(s: string, sep: seq<bool>, cur: string, acc: seq<string>)
    requires |sep| == |s| && s != [] && !sep[0]
    ensures Concat(Collect(s, sep, cur, acc)) == Concat(acc) + cur + Kept(s, sep)
    decreases |s|, 0
  {
    assert Collect(s, sep, cur, acc) == Collect(s[1..], sep[1..], cur + [s[0]], acc);
    assert Kept(s, sep) == [s[0]] + Kept(s[1..], sep[1..]);
    CollectConcat(s[1..], sep[1..], cur + [s[0]], acc);
  }

  /** No emitted field is empty. */
  lemma {:induction false} CollectNoEmptyField(s: string, sep: seq<bool>, cur: string, acc: seq<string>)
    requires |sep| == |s|
    requires NoEmptyField(acc)
    ensures NoEmptyField(Collect(s, sep, cur, acc))
    decreases |s|
  {
    if s != [] {
      if sep[0] {
        CollectNoEmptyField(s[1..], sep[1..], [], Flush(cur, acc));
      } else {
        CollectNoEmptyField(s[1..], sep[1..], cur + [s[0]], acc);
      }
    }
  }

  /** Fields already emitted are never revisited. */
  lemma {:induction false} CollectKeepsEmitted(s: string, sep: seq<bool>, cur: string, acc: seq<string>)
    requires |sep| == |s|
    ensures Collect(s, sep, cur, acc) == acc + Collect(s, sep, cur, [])
    decreases |s|
  {
    if s == [] {
    } else if sep[0] {
      CollectKeepsEmitted(s[1..], sep[1..], [], Flush(cur, acc));
      CollectKeepsEmitted(s[1..], sep[1..], [], Flush(cur, []));
    } else {
      CollectKeepsEmitted(s[1..], sep[1..], cur + [s[0]], acc);
      CollectKeepsEmitted(s[1..], sep[1..], cur + [s[0]], []);
    }
  }

  /** A stretch of runes none of which separates is appended to the current field as a whole. */
  lemma {:induction false} CollectPlain(a: string, ma: seq<bool>, rest: string, m: seq<bool>, cur: string, acc: seq<string>)
    requires |ma| == |a| && |m| == |rest|
    requires NoSeparator(ma)
    ensures Collect(a + rest, ma + m, cur, acc) == Collect(rest, m, cur + a, acc)
    decreases |a|
  {
    if a == [] {
      assert a + rest == rest && ma + m == m && cur + a == cur;
    } else {
      assert (a + rest)[1..] == a[1..] + rest;
      assert (ma + m)[1..] == ma[1..] + m;
      assert cur + [a[0]] + a[1..] == cur + a;
      CollectPlain(a[1..], ma[1..], rest, m, cur + [a[0]], acc);
    }
  }

  /** A word followed by one separator is emitted as a field of its own. */
  lemma CollectWord(w: string, mw: seq<bool>, c: char, rest: string, m: seq<bool>, acc: seq<string>)
    requires |mw| == |w| && |m| == |rest|
    requires w != [] && NoSeparator(mw)
    ensures Collect(w + [c] + rest, mw + [true] + m, [], acc) == Collect(rest, m, [], acc + [w])
  {
    assert w + [c] + rest == w + ([c] + rest);
    assert mw + [true] + m == mw + ([true] + m);
    CollectPlain(w, mw, [c] + rest, [true] + m, [], acc);
    assert ([c] + rest)[1..] == rest && ([true] + m)[1..] == m;
    assert [] + w == w;
  }

  /** Without any separator, a non-empty input is one field. */
  lemma SplitNoSeparator(s: string, sep: seq<bool>)
    requires |sep| == |s| && NoSeparator(sep)
    ensures Split(s, sep) == if s == [] then [] else [s]
  {
    CollectPlain(s, sep, [], [], [], []);
    assert s + [] == s && sep + [] == sep && [] + s == s;
  }

  /** A separator ends the scan of what precedes it: the scan of what follows starts afresh. */
  lemma {:induction false} CollectAtSeparator(a: string, ma: seq<bool>, c: char, b: string, mb: seq<bool>, cur: string, acc: seq<string>)
    requires |ma| == |a| && |mb| == |b|
    ensures Collect(a + [c] + b, ma + [true] + mb, cur, acc) == Collect(b, mb, [], Collect(a, ma, cur, acc))
    decreases |a|
  {
    if a == [] {
      assert a + [c] + b == [c] + b && ([c] + b)[1..] == b;
      assert ma + [true] + mb == [true] + mb && ([true] + mb)[1..] == mb;
    } else {
      assert (a + [c] + b)[0] == a[0] && (a + [c] + b)[1..] == a[1..] + [c] + b;
      assert (ma + [true] + mb)[0] == ma[0] && (ma + [true] + mb)[1..] == ma[1..] + [true] + mb;
      if ma[0] {
        CollectAtSeparator(a[1..], ma[1..], c, b, mb, [], Flush(cur, acc));
      } else {
        CollectAtSeparator(a[1..], ma[1..], c, b, mb, cur + [a[0]], acc);
      }
    }
  }

  /** Fields break at every separator: the fields on either side of one are split independently. */
  lemma SplitAtSeparator(a: string, ma: seq<bool>, c: char, b: string, mb: seq<bool>)
    requires |ma| == |a| && |mb| == |b|
    ensures Split(a + [c] + b, ma + [true] + mb) == Split(a, ma) + Split(b, mb)
  {
    CollectAtSeparator(a, ma, c, b, mb, [], []);
    CollectKeepsEmitted(b, mb, [], Split(a, ma));
  }

  /** The mask of Go's strings.Fields: a rune separates exactly when it is white space. */
  function SpaceMask(isSpace: char -> bool, s: string): (m: seq<bool>)
    ensures |m| == |s|
    ensures forall i :: 0 <= i < |s| ==> m[i] == isSpace(s[i])
  {
    if s == [] then [] else [isSpace(s[0])] + SpaceMask(isSpace, s[1..])
  }

  /** The runes of s that are not white space, in order. */
  function NonSpace(isSpace: char -> bool, s: string): string
  {
    if s == [] then [] else (if isSpace(s[0]) then [] else [s[0]]) + NonSpace(isSpace, s[1..])
  }

  lemma {:induction false} KeptSpaceMask(isSpace: char -> bool, s: string)
    ensures Kept(s, SpaceMask(isSpace, s)) == NonSpace(isSpace, s)
  {
    if s != [] { KeptSpaceMask(isSpace, s[1..]); }
  }

  /** No field holds a rune of a separating kind, when the mask is given by that kind. */
  lemma {:induction false} CollectAvoids(p: char -> bool, s: string, sep: seq<bool>, cur: string, acc: seq<string>)
    requires |sep| == |s|
    requires forall i :: 0 <= i < |s| ==> sep[i] == p(s[i])
    requires forall c :: c in cur ==> !p(c)
    requires forall t, c :: t in acc && c in t ==> !p(c)
    ensures forall t, c :: t in Collect(s, sep, cur, acc) && c in t ==> !p(c)
    decreases |s|
  {
    if s != [] {
      assert forall i :: 0 <= i < |s[1..]| ==> sep[1..][i] == p(s[1..][i]) by {
        forall i | 0 <= i < |s[1..]| ensures sep[1..][i] == p(s[1..][i]) {
          assert sep[1..][i] == sep[i + 1] && s[1..][i] == s[i + 1];
        }
      }
      if sep[0] {
        CollectAvoids(p, s[1..], sep[1..], [], Flush(cur, acc));
      } else {
        assert !p(s[0]);
        CollectAvoids(p, s[1..], sep[1..], cur + [s[0]], acc);
      }
    }
  }

  /** Go's strings.Fields, for a white-space classification isSpace. */
  function FieldsOf(isSpace: char -> bool, s: string): (r: seq<string>)
    ensures NoEmptyField(r)
    ensures Concat(r) == NonSpace(isSpace, s)
    ensures forall t, c :: t in r && c in t ==> !isSpace(c)
  {
    var m := SpaceMask(isSpace, s);
    CollectNoEmptyField(s, m, [], []);
    CollectConcat(s, m, [], []);
    KeptSpaceMask(isSpace, s);
    CollectAvoids(isSpace, s, m, [], []);
    Split(s, m)
  }

  /** strings.Fields breaks a line at each white-space rune and splits both sides on their own. */
  lemma FieldsAtSpace(isSpace: char -> bool, s: string, k: nat)
    requires k < |s| && isSpace(s[k])
    ensures FieldsOf(isSpace, s) == FieldsOf(isSpace, s[..k]) + FieldsOf(isSpace, s[k + 1..])
  {
    var a, b := s[..k], s[k + 1..];
    var ma, mb := SpaceMask(isSpace, a), SpaceMask(isSpace, b);
    assert s == a + [s[k]] + b;
    assert SpaceMask(isSpace, s) == ma + [true] + mb by {
      var m := SpaceMask(isSpace, s);
      forall i | 0 <= i < |m| ensures m[i] == (ma + [true] + mb)[i] {
        if i < k { assert s[i] == a[i]; }
        else if i > k { assert s[i] == b[i - k - 1]; }
      }
    }
    SplitAtSeparator(a, ma, s[k], b, mb);
    assert FieldsOf(isSpace, s) == Split(s, ma + [true] + mb);
  }

  /** A line with no white space is not broken: it is one field, or none when it is empty. */
  lemma FieldsWithoutSpace(isSpace: char -> bool, s: string)
    requires forall i :: 0 <= i < |s| ==> !isSpace(s[i])
    ensures FieldsOf(isSpace, s) == if s == [] then [] else [s]
  {
    SplitNoSeparator(s, SpaceMask(isSpace, s));
  }

  /**
   * The argument vectors of a read-eval loop that splits `word + " " + line`
   * with strings.Fields, one per line read.
   */
  method Repl(isSpace: char -> bool, word: string, lines: seq<string>) returns (argvs: seq<seq<string>>)
    ensures |argvs| == |lines|
    ensures forall i :: 0 <= i < |lines| ==> argvs[i] == FieldsOf(isSpace, word + " " + lines[i])
  {
    argvs := [];
    for n := 0 to |lines|
      invariant |argvs| == n
      invariant forall i :: 0 <= i < n ==> argvs[i] == FieldsOf(isSpace, word + " " + lines[i])
    {
      argvs := argvs + [FieldsOf(isSpace, word + " " + lines[n])];
    }
  }

  /**
   * A line split by strings.Fields after a program name and one blank have been
   * put in front of it: the name is field 0 and the line's own fields follow.
   */
  lemma {:induction false} LeadingWord(isSpace: char -> bool, w: string, line: string)
    requires w != [] && isSpace(' ')
    requires forall c :: c in w ==> !isSpace(c)
    ensures FieldsOf(isSpace, w + " " + line) == [w] + FieldsOf(isSpace, line)
  {
    var s := w + " " + line;
    var mw := SpaceMask(isSpace, w);
    var m := SpaceMask(isSpace, line);
    assert SpaceMask(isSpace, s) == mw + [true] + m by {
      var full := SpaceMask(isSpace, s);
      assert |full| == |mw + [true] + m|;
      forall i | 0 <= i < |full| ensures full[i] == (mw + [true] + m)[i] {
        if i < |w| { assert s[i] == w[i]; }
        else if i == |w| { assert s[i] == ' '; }
        else { assert s[i] == line[i - |w| - 1]; }
      }
    }
    assert NoSeparator(mw) by {
      forall i | 0 <= i < |mw| ensures !mw[i] { assert w[i] in w; }
    }
    CollectWord(w, mw, ' ', line, m, []);
    CollectKeepsEmitted(line, m, [], [w]);
    assert w + [' '] + line == s;
    assert FieldsOf(isSpace, s) == Collect(s, SpaceMask(isSpace, s), [], []);
    assert FieldsOf(isSpace, line) == Collect(line, m, [], []);
    assert [] + [w] == [w];
    assert Collect(s, SpaceMask(isSpace, s), [], []) == Collect(line, m, [], [w]);
  }
}
