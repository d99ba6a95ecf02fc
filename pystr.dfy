/**
 * The two Python string built-ins the watcher scripts lean on:
 * `str.strip()` with no argument and `str.split(sep)` with a one-character
 * separator. Both are defined here as functions over `string` (a sequence of
 * Unicode scalar values), with their meaning stated in their contracts and
 * the round trips between `Split` and `Join` proved as lemmas.
 */
module PyStr {

  /** The characters Python's `str.isspace()` accepts, which are exactly the
      characters `str.strip()` removes when called without an argument. */
  predicate IsSpace(c: char) {
    || c == ' '
    || ('\t' <= c <= '\r')              // \t \n \v \f \r
    || ('\U{1C}' <= c <= '\U{1F}')      // file, group, record and unit separators
    || c == '\U{85}' || c == '\U{A0}' || c == '\U{1680}'
    || ('\U{2000}' <= c <= '\U{200A}')
    || c == '\U{2028}' || c == '\U{2029}' || c == '\U{202F}'
    || c == '\U{205F}' || c == '\U{3000}'
  }

  predicate AllSpace(s: string) {
    forall i :: 0 <= i < |s| ==> IsSpace(s[i])
  }

  /** Neither end of `s` is whitespace. */
  predicate Trimmed(s: string) {
    s == [] || (!IsSpace(s[0]) && !IsSpace(s[|s| - 1]))
  }

  /** `s.lstrip()`: the input without its leading whitespace. The result
      does not start with whitespace; `TrimStartDropsSpace` shows it is a
      suffix of `s` and that only whitespace was dropped. */
  function TrimStart(s: string): (r: string)
    ensures |r| <= |s|
    ensures r == [] || !IsSpace(r[0])
  {
    if s != [] && IsSpace(s[0]) then TrimStart(s[1..]) else s
  }

  /** `s.rstrip()`: the input without its trailing whitespace. The result
      does not end with whitespace; `TrimEndDropsSpace` shows it is a prefix
      of `s` and that only whitespace was dropped. */
  function TrimEnd(s: string): (r: string)
    ensures |r| <= |s|
    ensures r == [] || !IsSpace(r[|r| - 1])
  {
    if s != [] && IsSpace(s[|s| - 1]) then TrimEnd(s[..|s| - 1]) else s
  }

  lemma {:induction false} TrimStartDropsSpace(s: string)
    ensures TrimStart(s) == s[|s| - |TrimStart(s)|..]
    ensures AllSpace(s[..|s| - |TrimStart(s)|])
    decreases |s|
  {
    if s != [] && IsSpace(s[0]) {
      TrimStartDropsSpace(s[1..]);
      var n := |s| - |TrimStart(s)|;
      assert s[..n] == [s[0]] + s[1..][..n - 1];
      assert s[n..] == s[1..][n - 1..];
    }
  }

  lemma {:induction false} TrimEndDropsSpace(s: string)
    ensures TrimEnd(s) == s[..|TrimEnd(s)|]
    ensures AllSpace(s[|TrimEnd(s)|..])
    decreases |s|
  {
    if s != [] && IsSpace(s[|s| - 1]) {
      var t := s[..|s| - 1];
      TrimEndDropsSpace(t);
      assert s[|TrimEnd(s)|..] == t[|TrimEnd(t)|..] + [s[|s| - 1]];
      assert s[..|TrimEnd(s)|] == t[..|TrimEnd(t)|];
    }
  }

  /** `s.strip()`: `s` without leading and trailing whitespace, so neither
      end of the result is whitespace. `StripBlank` shows it is empty exactly
      when `s` is blank; `StripUnique` that it is the one trimmed middle
      part of `s` whose surroundings are all whitespace. */
  function Strip(s: string): (r: string)
    ensures Trimmed(r)
    ensures |r| <= |s|
  {
    var t := TrimStart(s);
    TrimEndDropsSpace(t);
    TrimEnd(t)
  }

  lemma StripBlank(s: string)
    ensures Strip(s) == [] <==> AllSpace(s)
  {
    var t := TrimStart(s);
    TrimStartDropsSpace(s);
    TrimEndDropsSpace(t);
    if AllSpace(s) {
      assert AllSpace(t);
      assert t == [];
    }
    if Strip(s) == [] {
      assert AllSpace(t) by { assert t[0..] == t; }
      assert t == [];
      assert s[..|s|] == s;
    }
  }

  lemma {:induction false} TrimStartSkips(a: string, m: string)
    requires AllSpace(a)
    requires m == [] || !IsSpace(m[0])
    ensures TrimStart(a + m) == m
    decreases |a|
  {
    if a == [] {
      assert a + m == m;
    } else {
      assert (a + m)[1..] == a[1..] + m;
      TrimStartSkips(a[1..], m);
    }
  }

  lemma {:induction false} TrimEndSkips(m: string, b: string)
    requires AllSpace(b)
    requires m == [] || !IsSpace(m[|m| - 1])
    ensures TrimEnd(m + b) == m
    decreases |b|
  {
    if b == [] {
      assert m + b == m;
    } else {
      assert (m + b)[..|m + b| - 1] == m + b[..|b| - 1];
      TrimEndSkips(m, b[..|b| - 1]);
    }
  }

  /** `Strip` is characterised independently of how it is computed: whenever
      `s` is whitespace, then a trimmed middle part, then whitespace, the
      middle part is what `Strip` returns. */
  lemma StripUnique(a: string, m: string, b: string)
    requires AllSpace(a) && AllSpace(b) && Trimmed(m)
    ensures Strip(a + m + b) == m
  {
    if m == [] {
      assert a + m + b == a + b;
      assert AllSpace(a + b) by {
        forall i | 0 <= i < |a + b| ensures IsSpace((a + b)[i]) {
          if i < |a| { assert (a + b)[i] == a[i]; } else { assert (a + b)[i] == b[i - |a|]; }
        }
      }
      StripBlank(a + b);
    } else {
      assert a + m + b == a + (m + b);
      TrimStartSkips(a, m + b);
      TrimEndSkips(m, b);
    }
  }

  /** How many times `c` occurs in `s`. */
  function Count(s: string, c: char): (n: nat) {
    if s == [] then 0 else (if s[0] == c then 1 else 0) + Count(s[1..], c)
  }

  /** `s.split(sep)` for a one-character separator: the maximal pieces of `s`
      between occurrences of `sep`, in order. Empty pieces are kept (before a
      leading separator, between two adjacent ones, after a trailing one), so
      there is always one piece more than there are separators. */
  function Split(s: string, sep: char): (parts: seq<string>)
    ensures |parts| == Count(s, sep) + 1
  {
    if s == [] then [[]]
    else
      var rest := Split(s[1..], sep);
      if s[0] == sep then [[]] + rest
      else [[s[0]] + rest[0]] + rest[1..]
  }

  /** No piece of a split contains the separator. */
  lemma {:induction false} SplitPiecesFree(s: string, sep: char)
    ensures forall i :: 0 <= i < |Split(s, sep)| ==> sep !in Split(s, sep)[i]
    decreases |s|
  {
    if s != [] {
      SplitPiecesFree(s[1..], sep);
    }
  }

  /** `sep.join(parts)`: the pieces in order, one separator between each two. */
  function Join(parts: seq<string>, sep: char): (s: string)
    requires |parts| >= 1
    decreases |parts|
  {
    if |parts| == 1 then parts[0] else parts[0] + [sep] + Join(parts[1..], sep)
  }

  /** Prefixing the first piece with one character prefixes the join with it. */
  lemma JoinExtendFirst(x: char, parts: seq<string>, sep: char)
    requires |parts| >= 1
    ensures Join([[x] + parts[0]] + parts[1..], sep) == [x] + Join(parts, sep)
  {
  }

  /** Joining the pieces of a split gives back the original string: no
      character is lost, duplicated or reordered by `Split`. */
  lemma {:induction false} SplitJoin(s: string, sep: char)
    ensures Join(Split(s, sep), sep) == s
    decreases |s|
  {
    if s != [] {
      var rest := Split(s[1..], sep);
      SplitJoin(s[1..], sep);
      assert [s[0]] + s[1..] == s;
      if s[0] == sep {
        assert ([[]] + rest)[1..] == rest;
        assert Join([[]] + rest, sep) == [] + [sep] + Join(rest, sep);
      } else {
        JoinExtendFirst(s[0], rest, sep);
      }
    }
  }

  lemma {:induction false} SplitPiece(p: string, sep: char, t: string)
    requires sep !in p
    ensures Split(p + [sep] + t, sep) == [p] + Split(t, sep)
    decreases |p|
  {
    if p == [] {
      assert p + [sep] + t == [sep] + t;
      assert ([sep] + t)[1..] == t;
    } else {
      assert (p + [sep] + t)[1..] == p[1..] + [sep] + t;
      SplitPiece(p[1..], sep, t);
      assert [p[0]] + p[1..] == p;
    }
  }

  lemma {:induction false} SplitNoSeparator(p: string, sep: char)
    requires sep !in p
    ensures Split(p, sep) == [p]
    decreases |p|
  {
    if p != [] {
      SplitNoSeparator(p[1..], sep);
      assert [p[0]] + p[1..] == p;
    }
  }

  /** Splitting a join gives back the pieces, provided no piece contains the
      separator (pieces that do would be cut further). */
  lemma {:induction false} JoinSplit(parts: seq<string>, sep: char)
    requires |parts| >= 1
    requires forall i :: 0 <= i < |parts| ==> sep !in parts[i]
    ensures Split(Join(parts, sep), sep) == parts
    decreases |parts|
  {
    if |parts| == 1 {
      SplitNoSeparator(parts[0], sep);
    } else {
      JoinSplit(parts[1..], sep);
      SplitPiece(parts[0], sep, Join(parts[1..], sep));
      assert [parts[0]] + parts[1..] == parts;
    }
  }
}
