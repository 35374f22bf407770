/**
 * The handful of Python `str` operations the application relies on,
 * written out over `seq<char>`: `isspace`, `strip`, `startswith`,
 * `endswith`, `find`, `in`, `split(sep)`, `split()` and `split(sep)[0]`,
 * and the outcome of decoding bytes as UTF-8.
 */
module Text {
  import opened Wrappers

  /**
   * The outcome of `data.decode('utf-8')` on a byte string: its text, or
   * the `UnicodeDecodeError` of a malformed byte sequence. The empty byte
   * string is `Decoded("")`.
   */
  datatype Payload = Decoded(text: string) | Undecodable

  /** Python's `str.isspace` for a single character. */
  predicate IsSpace(c: char) {
    c == ' ' || ('\t' <= c <= '\r') || ('\U{1c}' <= c <= '\U{1f}')
    || c == '\U{85}' || c == '\U{a0}' || c == '\U{1680}'
    || ('\U{2000}' <= c <= '\U{200a}') || c == '\U{2028}' || c == '\U{2029}'
    || c == '\U{202f}' || c == '\U{205f}' || c == '\U{3000}'
  }

  predicate NoSpace(s: string) {
    forall i :: 0 <= i < |s| ==> !IsSpace(s[i])
  }

  /** `s.lstrip()` */
  function TrimLeft(s: string): (r: string)
    ensures |r| <= |s| && r == s[|s| - |r|..]
    ensures r == [] || !IsSpace(r[0])
    ensures forall i :: 0 <= i < |s| - |r| ==> IsSpace(s[i])
  {
    if s != [] && IsSpace(s[0]) then TrimLeft(s[1..]) else s
  }

  /** `s.rstrip()` */
  function TrimRight(s: string): (r: string)
    ensures |r| <= |s| && r == s[..|r|]
    ensures r == [] || !IsSpace(r[|r| - 1])
    ensures forall i :: |r| <= i < |s| ==> IsSpace(s[i])
  {
    if s != [] && IsSpace(s[|s| - 1]) then TrimRight(s[..|s| - 1]) else s
  }

  /** `s.strip()` */
  function Strip(s: string): (r: string)
    ensures r == [] || (!IsSpace(r[0]) && !IsSpace(r[|r| - 1]))
  {
    TrimRight(TrimLeft(s))
  }

  /** `s.startswith(p)` */
  predicate StartsWith(s: string, p: string) {
    |p| <= |s| && s[..|p|] == p
  }

  /** `s.endswith(p)` */
  predicate EndsWith(s: string, p: string) {
    |p| <= |s| && s[|s| - |p|..] == p
  }

  /** `p` occurs in `s` at index `i`. */
  predicate OccursAt(s: string, p: string, i: int) {
    0 <= i && i + |p| <= |s| && s[i..i + |p|] == p
  }

  /** `s.find(p, from)`: the first index at or after `from` where `p` occurs, or -1. */
  function IndexOf(s: string, p: string, from: nat): (r: int)
    decreases |s| - from
    ensures r == -1 || (from <= r && OccursAt(s, p, r))
    ensures r == -1 ==> forall i :: from <= i ==> !OccursAt(s, p, i)
    ensures r >= 0 ==> forall i :: from <= i < r ==> !OccursAt(s, p, i)
  {
    if from + |p| > |s| then -1
    else if s[from..from + |p|] == p then from
    else IndexOf(s, p, from + 1)
  }

  /** Python's `p in s` for two strings. */
  predicate Contains(s: string, p: string) {
    IndexOf(s, p, 0) >= 0
  }

  /** `sep.join(pieces)` */
  function Join(pieces: seq<string>, sep: char): string {
    if pieces == [] then ""
    else if |pieces| == 1 then pieces[0]
    else pieces[0] + [sep] + Join(pieces[1..], sep)
  }

  /**
   * `s.split(sep)` for a one-character separator: the pieces between
   * separators, so one more piece than there are separators.
   */
  function Split(s: string, sep: char): (r: seq<string>)
    ensures |r| >= 1
  {
    if s == [] then [""]
    else
      var rest := Split(s[1..], sep);
      if s[0] == sep then [""] + rest
      else [[s[0]] + rest[0]] + rest[1..]
  }

  /** The longest prefix of `s` without whitespace. */
  function TakeWord(s: string): (r: string)
    ensures StartsWith(s, r) && NoSpace(r)
    ensures |r| == |s| || IsSpace(s[|r|])
  {
    if s == [] || IsSpace(s[0]) then "" else [s[0]] + TakeWord(s[1..])
  }

  /** `s.split()[0]`; `None` where Python raises IndexError (no token at all). */
  function FirstToken(s: string): (r: Option<string>)
    ensures r.Some? ==> r.value != "" && NoSpace(r.value)
    ensures r.None? <==> forall i :: 0 <= i < |s| ==> IsSpace(s[i])
  {
    var t := TrimLeft(s);
    if t == [] then None else Some(TakeWord(t))
  }

  /** `s.split()`: the maximal runs of non-whitespace characters, in order. */
  function Words(s: string): (r: seq<string>)
    ensures forall i :: 0 <= i < |r| ==> r[i] != "" && NoSpace(r[i])
    ensures r == [] <==> forall i :: 0 <= i < |s| ==> IsSpace(s[i])
    decreases |s|
  {
    if s == [] then []
    else if IsSpace(s[0]) then
      var r := Words(s[1..]);
      assert forall i :: 1 <= i < |s| ==> s[1..][i - 1] == s[i];
      r
    else
      var w := TakeWord(s);
      var rest := Words(s[|w|..]);
      var r := [w] + rest;
      assert forall i :: 1 <= i < |r| ==> r[i] == rest[i - 1];
      r
  }

  /** `s.split(sep)[0]`: the text before the first occurrence of `sep`, or all of `s`. */
  function BeforeFirst(s: string, sep: string): (r: string)
    requires sep != ""
    ensures StartsWith(s, r)
    ensures r == s || OccursAt(s, sep, |r|)
    ensures forall i :: 0 <= i && i + |sep| <= |r| ==> !OccursAt(s, sep, i)
  {
    var i := IndexOf(s, sep, 0);
    if i < 0 then s else s[..i]
  }

  // ---------------------------------------------------------------------
  // Facts used by the parsers' lemmas.

  /** A string whose ends are not whitespace is its own `strip()`. */
  lemma StripClean(s: string)
    requires s != [] && !IsSpace(s[0]) && !IsSpace(s[|s| - 1])
    ensures Strip(s) == s
  {
  }

  /** Leading whitespace does not change `strip()`. */
  lemma {:induction false} StripLeading(w: string, s: string)
    requires forall i :: 0 <= i < |w| ==> IsSpace(w[i])
    ensures TrimLeft(w + s) == TrimLeft(s)
    ensures Strip(w + s) == Strip(s)
  {
    if w != [] {
      assert (w + s)[0] == w[0] && (w + s)[1..] == w[1..] + s;
      StripLeading(w[1..], s);
    } else {
      assert w + s == s;
    }
  }

  /** No piece of `s.split(sep)` holds the separator. */
  lemma {:induction false} SplitPiecesClean(s: string, sep: char)
    ensures forall i :: 0 <= i < |Split(s, sep)| ==> sep !in Split(s, sep)[i]
  {
    if s != [] {
      SplitPiecesClean(s[1..], sep);
      var rest := Split(s[1..], sep);
      if s[0] != sep {
        assert forall i :: 1 <= i < |Split(s, sep)| ==> Split(s, sep)[i] == rest[i];
        assert forall c :: c in [s[0]] + rest[0] ==> c == s[0] || c in rest[0];
      }
    }
  }

  /** Joining the pieces of `s.split(sep)` with `sep` gives back `s`. */
  lemma {:induction false} SplitJoin(s: string, sep: char)
    ensures Join(Split(s, sep), sep) == s
  {
    if s != [] {
      SplitJoin(s[1..], sep);
      SplitJoinStep(s, sep);
    }
  }

  /** The round trip for `s` follows from the one for `s` without its first character. */
  lemma SplitJoinStep(s: string, sep: char)
    requires s != [] && Join(Split(s[1..], sep), sep) == s[1..]
    ensures Join(Split(s, sep), sep) == s
  {
    var rest := Split(s[1..], sep);
    assert s == [s[0]] + s[1..];
    if s[0] == sep {
      assert Split(s, sep) == [""] + rest;
    } else if |rest| > 1 {
      var r := Split(s, sep);
      assert r == [[s[0]] + rest[0]] + rest[1..];
      assert r[1..] == rest[1..];
      assert Join(rest, sep) == rest[0] + [sep] + Join(rest[1..], sep);
    }
  }

  /** Splitting a separator-free prefix glued onto more text. */
  lemma {:induction false} SplitPrefix(a: string, b: string, sep: char)
    requires sep !in a
    ensures Split(a + b, sep) == [a + Split(b, sep)[0]] + Split(b, sep)[1..]
  {
    if a != [] {
      assert (a + b)[0] == a[0] && (a + b)[1..] == a[1..] + b;
      SplitPrefix(a[1..], b, sep);
      assert [a[0]] + (a[1..] + Split(b, sep)[0]) == a + Split(b, sep)[0];
    } else {
      assert a + b == b;
      assert Split(b, sep) == [Split(b, sep)[0]] + Split(b, sep)[1..];
      assert a + Split(b, sep)[0] == Split(b, sep)[0];
    }
  }

  /** Splitting `a + sep + b` where `a` holds no separator. */
  lemma SplitAt(a: string, b: string, sep: char)
    requires sep !in a
    ensures Split(a + [sep] + b, sep) == [a] + Split(b, sep)
  {
    assert a + [sep] + b == a + ([sep] + b);
    SplitPrefix(a, [sep] + b, sep);
    assert ([sep] + b)[1..] == b;
    assert Split([sep] + b, sep) == [""] + Split(b, sep);
    assert a + "" == a;
  }

  /** A string with no separator splits into itself. */
  lemma SplitNone(a: string, sep: char)
    requires sep !in a
    ensures Split(a, sep) == [a]
  {
    SplitPrefix(a, "", sep);
    assert a + "" == a;
  }

  /** A character absent from `s` means a pattern holding it does not occur in `s`. */
  lemma AbsentChar(s: string, p: string, k: nat)
    requires k < |p| && p[k] !in s
    ensures !Contains(s, p)
  {
    forall i | 0 <= i
      ensures !OccursAt(s, p, i)
    {
      if i + |p| <= |s| {
        assert s[i..i + |p|][k] == s[i + k];
        assert s[i + k] in s;
      }
    }
  }

  /** Splitting a join of separator-free pieces gives the pieces back. */
  lemma {:induction false} JoinSplit(pieces: seq<string>, sep: char)
    requires pieces != []
    requires forall i :: 0 <= i < |pieces| ==> sep !in pieces[i]
    ensures Split(Join(pieces, sep), sep) == pieces
  {
    if |pieces| == 1 {
      SplitNone(pieces[0], sep);
    } else {
      JoinSplit(pieces[1..], sep);
      SplitAt(pieces[0], Join(pieces[1..], sep), sep);
      assert pieces == [pieces[0]] + pieces[1..];
    }
  }

  /** `find` lands on `i` when `p` occurs there and nowhere between `from` and `i`. */
  lemma IndexOfIs(s: string, p: string, from: nat, i: nat)
    requires from <= i && OccursAt(s, p, i)
    requires forall j :: from <= j < i ==> !OccursAt(s, p, j)
    ensures IndexOf(s, p, from) == i
  {
  }

  /** A one-character pattern occurs exactly where that character stands. */
  lemma OccursChar(s: string, c: char, i: int)
    ensures OccursAt(s, [c], i) <==> 0 <= i < |s| && s[i] == c
  {
    if 0 <= i < |s| {
      assert s[i..i + 1] == [s[i]];
    }
  }

  /** The first word of a whitespace-free word followed by whitespace (or nothing) is that word. */
  lemma {:induction false} TakeWordPrefix(w: string, x: string)
    requires NoSpace(w)
    requires x == [] || IsSpace(x[0])
    ensures TakeWord(w + x) == w
  {
    if w == [] {
      assert w + x == x;
    } else {
      assert (w + x)[0] == w[0] && (w + x)[1..] == w[1..] + x;
      TakeWordPrefix(w[1..], x);
    }
  }

  // ---------------------------------------------------------------------
  // Concatenation, prefixes and first occurrences

  lemma Appended(a: string, b: string)
    ensures StartsWith(a + b, a) && EndsWith(a + b, b)
    ensures |a + b| > |a| <==> |b| > 0
  {
    assert (a + b)[..|a|] == a;
    assert (a + b)[|a + b| - |b|..] == b;
  }

  lemma CancelPrefix(a: string, x: string, y: string)
    requires a + x == a + y
    ensures x == y
  {
    assert x == (a + x)[|a|..];
    assert y == (a + y)[|a|..];
  }

  /** A pattern whose first character is not in `a` occurs in `a + b` first at `|a|`. */
  lemma FirstOccurrence(a: string, b: string)
    requires b != [] && b[0] !in a
    ensures BeforeFirst(a + b, b) == a
  {
    var s := a + b;
    assert s[|a|..|a| + |b|] == b;
    forall j | 0 <= j < |a|
      ensures !OccursAt(s, b, j)
    {
      if j + |b| <= |s| {
        assert s[j..j + |b|][0] == a[j];
      }
    }
    IndexOfIs(s, b, 0, |a|);
  }

  /** A pattern whose first character is not in `a` and that does not occur in `b` does not occur in `a + b`. */
  lemma Absent(a: string, b: string, p: string)
    requires p != [] && p[0] !in a && !Contains(b, p)
    ensures !Contains(a + b, p)
  {
    var s := a + b;
    forall j | 0 <= j
      ensures !OccursAt(s, p, j)
    {
      if j + |p| <= |s| {
        if j < |a| {
          assert s[j..j + |p|][0] == a[j];
        } else {
          assert s[j..j + |p|] == b[j - |a|..j - |a| + |p|];
          assert !OccursAt(b, p, j - |a|);
        }
      }
    }
  }

  /** Splitting on a separator that does not occur keeps the whole string. */
  lemma NotFound(s: string, p: string)
    requires p != [] && !Contains(s, p)
    ensures BeforeFirst(s, p) == s
  {
  }

  lemma PrefixOfPrefix(s: string, a: string, b: string)
    requires StartsWith(s, a) && StartsWith(a, b)
    ensures StartsWith(s, b)
  {
    assert s[..|b|] == a[..|b|];
  }

  /** A prefix cut before the first occurrence of `p` holds no occurrence of `p`. */
  lemma NoOccurrenceBefore(s: string, r: string, p: string)
    requires p != "" && StartsWith(s, r)
    requires forall i :: 0 <= i && i + |p| <= |r| ==> !OccursAt(s, p, i)
    ensures !Contains(r, p)
  {
    assert r == s[..|r|];
    forall i | 0 <= i
      ensures !OccursAt(r, p, i)
    {
      if i + |p| <= |r| {
        assert r[i..i + |p|] == s[i..i + |p|];
        assert !OccursAt(s, p, i);
      }
    }
  }

  /** An occurrence in a prefix of `s` is an occurrence in `s`. */
  lemma OccursInLonger(s: string, r: string, p: string, i: int)
    requires StartsWith(s, r)
    ensures OccursAt(r, p, i) ==> OccursAt(s, p, i)
  {
    if OccursAt(r, p, i) {
      assert r == s[..|r|];
      assert s[i..i + |p|] == r[i..i + |p|];
    }
  }

  /** An occurrence of `p + q` holds an occurrence of `q` right after the `p`. */
  lemma OccursTail(s: string, p: string, q: string, i: int)
    requires OccursAt(s, p + q, i)
    ensures OccursAt(s, q, i + |p|)
  {
    assert s[i + |p|..i + |p| + |q|] == s[i..i + |p + q|][|p|..];
    assert (p + q)[|p|..] == q;
  }

  /** An occurrence anywhere makes `p in s` true. */
  lemma Occurs(s: string, p: string, i: int)
    requires OccursAt(s, p, i)
    ensures Contains(s, p)
  {
  }

  /** Leading whitespace adds no word. */
  lemma {:induction false} WordsSkipSpace(ws: string, s: string)
    requires forall i :: 0 <= i < |ws| ==> IsSpace(ws[i])
    ensures Words(ws + s) == Words(s)
  {
    if ws != [] {
      assert (ws + s)[1..] == ws[1..] + s;
      WordsSkipSpace(ws[1..], s);
    } else {
      assert ws + s == s;
    }
  }

  /**
   * `split()` of whitespace, a word, and a rest that is empty or starts
   * with whitespace gives that word followed by the words of the rest.
   */
  lemma WordsCons(ws: string, w: string, rest: string)
    requires forall i :: 0 <= i < |ws| ==> IsSpace(ws[i])
    requires w != "" && NoSpace(w)
    requires rest == [] || IsSpace(rest[0])
    ensures Words(ws + w + rest) == [w] + Words(rest)
  {
    assert ws + w + rest == ws + (w + rest);
    WordsSkipSpace(ws, w + rest);
    TakeWordPrefix(w, rest);
    assert (w + rest)[0] == w[0];
    assert (w + rest)[|w|..] == rest;
  }

  /** A word, a blank and a rest split into that word followed by the words of the rest. */
  lemma WordsBlank(w: string, rest: string)
    requires w != "" && NoSpace(w)
    ensures Words(w + [' '] + rest) == [w] + Words(rest)
  {
    assert w + [' '] + rest == [] + w + ([' '] + rest);
    WordsCons([], w, [' '] + rest);
    WordsSkipSpace([' '], rest);
  }

  /** A word on its own splits into itself. */
  lemma SingleWord(w: string)
    requires w != "" && NoSpace(w)
    ensures Words(w) == [w]
  {
    WordsCons([], w, []);
    assert [] + w + [] == w;
  }

  /** `split()` undoes `" ".join` of non-empty words without whitespace. */
  lemma {:induction false} WordsOfJoin(pieces: seq<string>)
    requires forall i :: 0 <= i < |pieces| ==> pieces[i] != "" && NoSpace(pieces[i])
    ensures Words(Join(pieces, ' ')) == pieces
  {
    if |pieces| == 1 {
      WordsCons([], pieces[0], []);
      assert [] + pieces[0] + [] == pieces[0];
    } else if |pieces| > 1 {
      var first, others := pieces[0], pieces[1..];
      WordsOfJoin(others);
      WordsBlank(first, Join(others, ' '));
      assert pieces == [first] + others;
    }
  }
}
