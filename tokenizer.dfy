/**
 * The quote-aware line tokenizer of spotcon.go (lines 320-347). A closure f
 * decides, rune by rune, whether a rune separates two tokens; it captures one
 * variable, lastQuote, that holds the quotation mark currently open (NUL when
 * none is). The REPL loop hands f to strings.FieldsFunc on "spotcon " + line,
 * and lastQuote is declared once, outside the loop, so an unclosed quote is
 * still open when the next line is read.
 *
 * The Unicode tables the closure consults (unicode.Quotation_Mark and
 * unicode.IsSpace) are parameters: Classes.isQuote and Classes.isSpace.
 */
module Tokenizer {
  import opened Fields

  /** rune(0), the value of lastQuote when no quote is open. */
  const NoQuote: char := 0 as char

  /** The program word and blank the REPL puts in front of every line it reads. */
  const ProgramPrefix: string := "spotcon "

  datatype Classes = Classes(isQuote: char -> bool, isSpace: char -> bool)

  /** What one call of f yields: the new value of lastQuote and whether the rune is a separator. */
  datatype Verdict = Verdict(quote: char, separator: bool)

  /** One call of the closure f on rune c while lastQuote holds q; the switch cases are tried in order. */
  function Step(cl: Classes, q: char, c: char): (v: Verdict)
    // only a white-space rune that is not a quotation mark, met while no quote is open, separates
    ensures v.separator <==> q == NoQuote && c != NoQuote && !cl.isQuote(c) && cl.isSpace(c)
    // the rune equal to lastQuote is tried first: it always resets the state (NUL included)
    ensures c == q ==> v.quote == NoQuote
    // an open quote stays open, through white space and other quotation marks, until its own mark returns
    ensures q != NoQuote ==> (v.quote == NoQuote <==> c == q)
    ensures q != NoQuote && c != q ==> v.quote == q
    // with no quote open, a quotation mark opens a quote and any other rune leaves none open
    ensures q == NoQuote && c != NoQuote ==> v.quote == (if cl.isQuote(c) then c else NoQuote)
  {
    if c == q then Verdict(NoQuote, false)
    else if q != NoQuote then Verdict(q, false)
    else if cl.isQuote(c) then Verdict(c, false)
    else Verdict(NoQuote, cl.isSpace(c))
  }

  /** The separator bit f returns for each rune of s, starting in state q. */
  function Mask(cl: Classes, q: char, s: string): (m: seq<bool>)
    ensures |m| == |s|
    decreases |s|
  {
    if s == [] then [] else
      var v := Step(cl, q, s[0]);
      [v.separator] + Mask(cl, v.quote, s[1..])
  }

  /** The value of lastQuote after f has seen every rune of s, starting in state q. */
  function After(cl: Classes, q: char, s: string): char
    decreases |s|
  {
    if s == [] then q else After(cl, Step(cl, q, s[0]).quote, s[1..])
  }

  /** strings.FieldsFunc(s, f) with lastQuote == q on entry. */
  function Tokens(cl: Classes, q: char, s: string): seq<string>
  {
    Split(s, Mask(cl, q, s))
  }

  /** The argument vectors the REPL builds for successive lines, starting in state q. */
  function Session(cl: Classes, q: char, lines: seq<string>): (argvs: seq<seq<string>>)
    ensures |argvs| == |lines|
    decreases |lines|
  {
    if lines == [] then []
    else [Tokens(cl, q, ProgramPrefix + lines[0])] + Session(cl, After(cl, q, ProgramPrefix + lines[0]), lines[1..])
  }

  /** The value of lastQuote after the REPL has read every line of lines, starting in state q. */
  function Carried(cl: Classes, q: char, lines: seq<string>): char
    decreases |lines|
  {
    if lines == [] then q else Carried(cl, After(cl, q, ProgramPrefix + lines[0]), lines[1..])
  }

  predicate AllPlain(m: seq<bool>)
  {
    forall i :: 0 <= i < |m| ==> !m[i]
  }

  /** Runes that are neither quotation marks nor white space, as the Unicode tables have the letters of a word. */
  predicate PlainWord(cl: Classes, w: string)
  {
    forall c :: c in w ==> c != NoQuote && !cl.isQuote(c) && !cl.isSpace(c)
  }

  lemma {:induction false} MaskAppend(cl: Classes, q: char, a: string, b: string)
    ensures Mask(cl, q, a + b) == Mask(cl, q, a) + Mask(cl, After(cl, q, a), b)
    ensures After(cl, q, a + b) == After(cl, After(cl, q, a), b)
    decreases |a|
  {
    if a == [] {
      assert a + b == b;
    } else {
      assert (a + b)[0] == a[0] && (a + b)[1..] == a[1..] + b;
      MaskAppend(cl, Step(cl, q, a[0]).quote, a[1..], b);
    }
  }

  /** The tokens are never empty and, read in order, spell out the input without its separator runes. */
  lemma TokensShape(cl: Classes, q: char, s: string)
    ensures NoEmptyField(Tokens(cl, q, s))
    ensures Concat(Tokens(cl, q, s)) == Kept(s, Mask(cl, q, s))
  {
    CollectNoEmptyField(s, Mask(cl, q, s), [], []);
    CollectConcat(s, Mask(cl, q, s), [], []);
  }

  /** Tokens break at every rune the closure calls a separator; the rest is split in the state reached there. */
  lemma TokensAtSeparator(cl: Classes, q: char, s: string, k: nat)
    requires k < |s| && Mask(cl, q, s)[k]
    ensures Tokens(cl, q, s) == Tokens(cl, q, s[..k]) + Tokens(cl, After(cl, q, s[..k + 1]), s[k + 1..])
  {
    var a, b := s[..k], s[k + 1..];
    var q' := After(cl, q, s[..k + 1]);
    assert s == s[..k + 1] + b;
    assert s[..k + 1] == a + [s[k]];
    MaskAppend(cl, q, s[..k + 1], b);
    MaskAppend(cl, q, a, [s[k]]);
    MaskAppend(cl, q, a, [s[k]] + b);
    assert Mask(cl, q, s) == Mask(cl, q, a) + [true] + Mask(cl, q', b) by {
      assert Mask(cl, q, s)[k] == Mask(cl, q, s[..k + 1])[k];
      assert Mask(cl, q, s[..k + 1])[k] == Mask(cl, After(cl, q, a), [s[k]])[0];
    }
    SplitAtSeparator(a, Mask(cl, q, a), s[k], b, Mask(cl, q', b));
  }

  /** A stretch of text in which the closure finds no separator is one token, or none when it is empty. */
  lemma TokensWithoutSeparator(cl: Classes, q: char, s: string)
    requires AllPlain(Mask(cl, q, s))
    ensures Tokens(cl, q, s) == if s == [] then [] else [s]
  {
    SplitNoSeparator(s, Mask(cl, q, s));
  }

  /** While a quote is open and its mark does not come back, nothing separates and the quote stays open. */
  lemma {:induction false} OpenQuoteHolds(cl: Classes, q: char, s: string)
    requires q != NoQuote && q !in s
    ensures AllPlain(Mask(cl, q, s))
    ensures After(cl, q, s) == q
  {
    if s != [] {
      assert s[0] != q && s == [s[0]] + s[1..];
      OpenQuoteHolds(cl, q, s[1..]);
    }
  }

  /** An unterminated quote makes the rest of the line one token and is still open afterwards. */
  lemma UnterminatedQuote(cl: Classes, q: char, s: string)
    requires q != NoQuote && q !in s && s != []
    ensures Tokens(cl, q, s) == [s]
    ensures After(cl, q, s) == q
  {
    OpenQuoteHolds(cl, q, s);
    SplitNoSeparator(s, Mask(cl, q, s));
  }

  /**
   * A quotation mark opens a quote that only the same mark closes, both marks
   * stay in the token, and afterwards no quote is open.
   */
  lemma QuotedSpan(cl: Classes, m: char, body: string, rest: string)
    requires m != NoQuote && cl.isQuote(m) && m !in body
    ensures var span := [m] + body + [m];
      AllPlain(Mask(cl, NoQuote, span)) && After(cl, NoQuote, span) == NoQuote
      && Mask(cl, NoQuote, span + rest) == Mask(cl, NoQuote, span) + Mask(cl, NoQuote, rest)
      && After(cl, NoQuote, span + rest) == After(cl, NoQuote, rest)
  {
    var span := [m] + body + [m];
    assert span == [m] + (body + [m]);
    assert Step(cl, NoQuote, m) == Verdict(m, false);
    OpenQuoteHolds(cl, m, body);
    MaskAppend(cl, m, body, [m]);
    assert Mask(cl, m, [m]) == [false] && After(cl, m, [m]) == NoQuote;
    assert Mask(cl, NoQuote, span) == [false] + Mask(cl, m, body + [m]);
    assert After(cl, NoQuote, span) == After(cl, m, body + [m]);
    MaskAppend(cl, NoQuote, span, rest);
  }

  /**
   * A quoted argument followed by a blank is one token, quotes included, even
   * when it contains white space; the rest of the line is tokenized as if alone.
   */
  lemma QuotedToken(cl: Classes, m: char, body: string, rest: string)
    requires m != NoQuote && cl.isQuote(m) && m !in body
    requires cl.isSpace(' ') && !cl.isQuote(' ')
    ensures Tokens(cl, NoQuote, [m] + body + [m] + " " + rest) == [[m] + body + [m]] + Tokens(cl, NoQuote, rest)
  {
    var span := [m] + body + [m];
    var s := span + " " + rest;
    var ms := Mask(cl, NoQuote, span);
    var mr := Mask(cl, NoQuote, rest);
    QuotedSpan(cl, m, body, " " + rest);
    assert s == span + (" " + rest);
    assert (" " + rest)[0] == ' ' && (" " + rest)[1..] == rest;
    assert Mask(cl, NoQuote, " " + rest) == [true] + mr;
    assert Mask(cl, NoQuote, s) == ms + [true] + mr;
    assert s == span + [' '] + rest;
    CollectWord(span, ms, ' ', rest, mr, []);
    CollectKeepsEmitted(rest, mr, [], [span]);
    assert [] + [span] == [span];
    assert Tokens(cl, NoQuote, s) == Collect(s, ms + [true] + mr, [], []);
  }

  /** A word of plain runes followed by a blank leaves no quote open and is a token of its own. */
  lemma PlainWordMask(cl: Classes, w: string)
    requires PlainWord(cl, w)
    ensures AllPlain(Mask(cl, NoQuote, w)) && After(cl, NoQuote, w) == NoQuote
    decreases |w|
  {
    if w != [] {
      assert w[0] in w;
      assert PlainWord(cl, w[1..]) by {
        forall c | c in w[1..] ensures c != NoQuote && !cl.isQuote(c) && !cl.isSpace(c) { assert c in w; }
      }
      PlainWordMask(cl, w[1..]);
    }
  }

  /** A plain word and a blank in front of a line become a token of their own, and the line's tokens follow. */
  lemma LeadingPlainWord(cl: Classes, w: string, line: string)
    requires cl.isSpace(' ') && !cl.isQuote(' ')
    requires w != [] && PlainWord(cl, w)
    ensures Tokens(cl, NoQuote, w + " " + line) == [w] + Tokens(cl, NoQuote, line)
  {
    var s := w + " " + line;
    var mw := Mask(cl, NoQuote, w);
    var m := Mask(cl, NoQuote, line);
    PlainWordMask(cl, w);
    assert s == w + (" " + line);
    MaskAppend(cl, NoQuote, w, " " + line);
    assert (" " + line)[0] == ' ' && (" " + line)[1..] == line;
    assert Mask(cl, NoQuote, " " + line) == [true] + m;
    assert Mask(cl, NoQuote, s) == mw + [true] + m;
    assert s == w + [' '] + line;
    CollectWord(w, mw, ' ', line, m, []);
    CollectKeepsEmitted(line, m, [], [w]);
    assert [] + [w] == [w];
    assert Tokens(cl, NoQuote, s) == Collect(s, mw + [true] + m, [], []);
  }

  /**
   * With no quote carried over, token 0 is "spotcon" and the line's own tokens
   * follow; the line is then tokenized as if it had been given alone.
   */
  lemma ProgramNameFirst(cl: Classes, line: string)
    requires cl.isSpace(' ') && !cl.isQuote(' ')
    requires PlainWord(cl, "spotcon")
    ensures Tokens(cl, NoQuote, ProgramPrefix + line) == ["spotcon"] + Tokens(cl, NoQuote, line)
  {
    assert ProgramPrefix + line == "spotcon" + " " + line;
    LeadingPlainWord(cl, "spotcon", line);
  }

  /** Line i of a session is tokenized with the quote state left over from all the lines before it. */
  lemma {:induction false} SessionLine(cl: Classes, q: char, lines: seq<string>, i: nat)
    requires i < |lines|
    ensures Session(cl, q, lines)[i] == Tokens(cl, Carried(cl, q, lines[..i]), ProgramPrefix + lines[i])
    decreases i
  {
    if i > 0 {
      var q' := After(cl, q, ProgramPrefix + lines[0]);
      SessionLine(cl, q', lines[1..], i - 1);
      assert lines[1..][..i - 1] == lines[..i][1..];
      assert lines[1..][i - 1] == lines[i];
    }
  }

  /**
   * A quote left open by one line swallows the next one: if that line does not
   * contain the open mark, its whole text, prompt included, is one token, so
   * token 0 is not "spotcon".
   */
  lemma QuoteCarriesOver(cl: Classes, q: char, first: string, second: string)
    requires After(cl, q, ProgramPrefix + first) != NoQuote
    requires After(cl, q, ProgramPrefix + first) !in ProgramPrefix + second
    ensures Session(cl, q, [first, second])[1] == [ProgramPrefix + second]
  {
    var open := After(cl, q, ProgramPrefix + first);
    assert [first, second][1..] == [second];
    UnterminatedQuote(cl, open, ProgramPrefix + second);
  }

  /** The REPL state: the captured variable lastQuote, and the character classes the closure consults. */
  class Splitter {
    const classes: Classes
    var lastQuote: char

    /** lastQuote := rune(0), before the REPL loop starts. */
    constructor (cl: Classes)
      ensures classes == cl && lastQuote == NoQuote
    {
      classes := cl;
      lastQuote := NoQuote;
    }

    /** The closure f. */
    method IsSeparator(c: char) returns (separator: bool)
      modifies this
      ensures var v := Step(classes, old(lastQuote), c);
        separator == v.separator && lastQuote == v.quote
    {
      if c == lastQuote {
        lastQuote := NoQuote;
        separator := false;
      } else if lastQuote != NoQuote {
        separator := false;
      } else if classes.isQuote(c) {
        lastQuote := c;
        separator := false;
      } else {
        separator := classes.isSpace(c);
      }
    }

    /** strings.FieldsFunc(s, f): one pass, f called once per rune in order, fields recorded from a start index. */
    method FieldsFunc(s: string) returns (fields: seq<string>)
      modifies this
      ensures fields == Tokens(classes, old(lastQuote), s)
      ensures lastQuote == After(classes, old(lastQuote), s)
    {
      ghost var q0 := lastQuote;
      fields := [];
      var start := -1;
      var i := 0;
      while i < |s|
        invariant 0 <= i <= |s|
        invariant -1 <= start < i
        invariant Collect(s[i..], Mask(classes, lastQuote, s[i..]), if start < 0 then [] else s[start..i], fields)
                  == Tokens(classes, q0, s)
        invariant After(classes, lastQuote, s[i..]) == After(classes, q0, s)
      {
        ghost var cur := if start < 0 then [] else s[start..i];
        ghost var q := lastQuote;
        assert s[i..][0] == s[i] && s[i..][1..] == s[i + 1..];
        var separator := IsSeparator(s[i]);
        if separator {
          if start >= 0 {
            fields := fields + [s[start..i]];
            start := -1;
          }
        } else {
          if start < 0 {
            start := i;
          }
          assert s[start..i + 1] == cur + [s[i]];
        }
        i := i + 1;
      }
      assert s[i..] == [] && Mask(classes, lastQuote, s[i..]) == [];
      if start >= 0 {
        assert s[start..] == s[start..i];
        fields := fields + [s[start..]];
      }
    }

    /** The REPL loop: each line read becomes FieldsFunc("spotcon " + line, f), with lastQuote kept between lines. */
    method Repl(lines: seq<string>) returns (argvs: seq<seq<string>>)
      modifies this
      ensures argvs == Session(classes, old(lastQuote), lines)
      ensures lastQuote == Carried(classes, old(lastQuote), lines)
    {
      ghost var q0 := lastQuote;
      argvs := [];
      var n := 0;
      while n < |lines|
        invariant 0 <= n <= |lines|
        invariant argvs + Session(classes, lastQuote, lines[n..]) == Session(classes, q0, lines)
        invariant Carried(classes, lastQuote, lines[n..]) == Carried(classes, q0, lines)
      {
        assert lines[n..][0] == lines[n] && lines[n..][1..] == lines[n + 1..];
        var argv := FieldsFunc(ProgramPrefix + lines[n]);
        argvs := argvs + [argv];
        n := n + 1;
      }
      assert lines[n..] == [];
    }
  }
}
