/** String operations of the Python handlers and the browser client that the
    pipeline depends on: `split(sep)[0]`, `split(sep)[1]`, slicing `s[:n]`,
    `str.strip()`, the first-occurrence `replace` of JavaScript and ASCII
    upper-casing. */
module Text {

  datatype Option<T> = None | Some(value: T) {
    function GetOr(default: T): T {
      match this
      case Some(v) => v
      case None => default
    }
  }

  function Min(a: int, b: int): int { if a <= b then a else b }

  // ---------------------------------------------------------------------
  // split(sep)[0] and split(sep)[1]
  // ---------------------------------------------------------------------

  /** The text before the first `sep`, or all of `s` when it has none:
      Python's and JavaScript's `s.split(sep)[0]`. */
  function FirstSegment(s: string, sep: char): (r: string)
    ensures |r| <= |s| && r == s[..|r|]
    ensures sep !in r
    ensures |r| < |s| ==> s[|r|] == sep
  {
    if s == [] then []
    else if s[0] == sep then []
    else [s[0]] + FirstSegment(s[1..], sep)
  }

  /** Joining two pieces with a separator the first piece does not contain
      and splitting again gives the first piece back. */
  lemma {:induction false} FirstSegmentOfJoin(a: string, sep: char, b: string)
    requires sep !in a
    ensures FirstSegment(a + [sep] + b, sep) == a
  {
    if a != [] {
      assert (a + [sep] + b)[1..] == a[1..] + [sep] + b;
      FirstSegmentOfJoin(a[1..], sep, b);
    }
  }

  /** JavaScript's `s.split(sep)[1]`: the text between the first and the
      second `sep` (or the end); `undefined`, here None, when `s` has no
      `sep` at all. */
  function SecondSegment(s: string, sep: char): (r: Option<string>)
    ensures r.None? <==> sep !in s
  {
    var head := FirstSegment(s, sep);
    if |head| == |s| then None else Some(FirstSegment(s[|head| + 1..], sep))
  }

  lemma SecondSegmentOfJoin(a: string, sep: char, b: string, c: string)
    requires sep !in a && sep !in b
    ensures SecondSegment(a + [sep] + b + c, sep) == Some(FirstSegment(b + c, sep))
    ensures c == [] ==> SecondSegment(a + [sep] + b, sep) == Some(b)
  {
    var s := a + [sep] + b + c;
    assert s == a + [sep] + (b + c);
    FirstSegmentOfJoin(a, sep, b + c);
    assert s[|a| + 1..] == b + c;
    if c == [] {
      assert b + c == b;
      FirstSegmentNoSep(b, sep);
    }
  }

  lemma {:induction false} FirstSegmentNoSep(s: string, sep: char)
    requires sep !in s
    ensures FirstSegment(s, sep) == s
  {
    if s != [] {
      FirstSegmentNoSep(s[1..], sep);
    }
  }

  // ---------------------------------------------------------------------
  // s[:n]
  // ---------------------------------------------------------------------

  /** Python's slice `s[:n]` for a non-negative bound. */
  function Take(s: string, n: nat): (r: string)
    ensures |r| == Min(|s|, n)
    ensures r == s[..|r|]
  {
    if |s| <= n then s else s[..n]
  }

  // ---------------------------------------------------------------------
  // str.strip()
  // ---------------------------------------------------------------------

  /** The characters for which Python's `str.isspace()` holds, which are the
      ones `str.strip()` removes when called without an argument. */
  predicate IsSpace(c: char)
  {
    ('\t' <= c <= '\r') || ('\U{1c}' <= c <= '\U{1f}') || c == ' ' ||
    c == '\U{85}' || c == '\U{a0}' || c == '\U{1680}' ||
    ('\U{2000}' <= c <= '\U{200a}') || c == '\U{2028}' || c == '\U{2029}' ||
    c == '\U{202f}' || c == '\U{205f}' || c == '\U{3000}'
  }

  predicate AllSpace(s: string)
  {
    forall i :: 0 <= i < |s| ==> IsSpace(s[i])
  }

  /** `s` with its leading whitespace removed (Python's `lstrip()`). */
  function TrimStart(s: string): (r: string)
    ensures |r| <= |s| && r == s[|s| - |r|..]
    ensures forall i :: 0 <= i < |s| - |r| ==> IsSpace(s[i])
    ensures r == [] || !IsSpace(r[0])
  {
    if s != [] && IsSpace(s[0]) then TrimStart(s[1..]) else s
  }

  /** `s` with its trailing whitespace removed (Python's `rstrip()`). */
  function TrimEnd(s: string): (r: string)
    ensures |r| <= |s| && r == s[..|r|]
    ensures forall i :: |r| <= i < |s| ==> IsSpace(s[i])
    ensures r == [] || !IsSpace(r[|r| - 1])
  {
    if s != [] && IsSpace(s[|s| - 1]) then TrimEnd(s[..|s| - 1]) else s
  }

  /** Python's `str.strip()`: the piece of `s` between its leading and its
      trailing whitespace. */
  function Strip(s: string): (r: string)
    ensures |r| <= |s|
    ensures r == [] || (!IsSpace(r[0]) && !IsSpace(r[|r| - 1]))
    ensures r == [] <==> AllSpace(s)
  {
    var t := TrimStart(s);
    var r := TrimEnd(t);
    if t == [] then
      assert s[..|s| - |t|] == s;
      r
    else
      assert s[|s| - |t|] == t[0];
      r
  }

  /** Stripping twice is stripping once. */
  lemma StripIdempotent(s: string)
    ensures Strip(Strip(s)) == Strip(s)
  {
    var r := Strip(s);
    if r != [] {
      assert TrimStart(r) == r;
      assert TrimEnd(r) == r;
    }
  }

  /** Stripping keeps the inner text: a text that starts and ends with
      something other than whitespace comes through unchanged, whatever
      whitespace surrounds it. */
  lemma {:induction false} StripPadded(lead: string, core: string, trail: string)
    requires AllSpace(lead) && AllSpace(trail)
    requires core != [] && !IsSpace(core[0]) && !IsSpace(core[|core| - 1])
    ensures Strip(lead + core + trail) == core
  {
    TrimStartPadded(lead, core + trail);
    assert lead + core + trail == lead + (core + trail);
    TrimEndPadded(core, trail);
  }

  lemma {:induction false} TrimStartPadded(lead: string, rest: string)
    requires AllSpace(lead) && rest != [] && !IsSpace(rest[0])
    ensures TrimStart(lead + rest) == rest
  {
    var s := lead + rest;
    if lead != [] {
      assert s[0] == lead[0] && IsSpace(s[0]);
      assert s[1..] == lead[1..] + rest;
      assert TrimStart(s) == TrimStart(s[1..]);
      TrimStartPadded(lead[1..], rest);
    } else {
      assert s == rest;
    }
  }

  lemma {:induction false} TrimEndPadded(rest: string, trail: string)
    requires AllSpace(trail) && rest != [] && !IsSpace(rest[|rest| - 1])
    ensures TrimEnd(rest + trail) == rest
  {
    if trail != [] {
      var s := rest + trail;
      assert s[..|s| - 1] == rest + trail[..|trail| - 1];
      TrimEndPadded(rest, trail[..|trail| - 1]);
    } else {
      assert rest + trail == rest;
    }
  }

  // ---------------------------------------------------------------------
  // JavaScript replace(from, to) with a string pattern, and toUpperCase()
  // ---------------------------------------------------------------------

  /** JavaScript's `s.replace(from, to)` for one-character strings: only the
      FIRST occurrence of `from` is replaced. */
  function ReplaceFirst(s: string, from: char, to: char): (r: string)
    ensures |r| == |s|
  {
    if s == [] then []
    else if s[0] == from then [to] + s[1..]
    else [s[0]] + ReplaceFirst(s[1..], from, to)
  }

  /** Position by position: a character changes exactly when it is the
      first occurrence of `from`. */
  lemma {:induction false} ReplaceFirstSpec(s: string, from: char, to: char)
    ensures forall i :: 0 <= i < |s| ==>
      ReplaceFirst(s, from, to)[i] == (if s[i] == from && from !in s[..i] then to else s[i])
  {
    if s != [] && s[0] != from {
      ReplaceFirstSpec(s[1..], from, to);
      assert forall i :: 1 <= i < |s| ==> s[..i] == [s[0]] + s[1..][..i - 1];
    }
  }

  /** With no earlier occurrence, the first `from` is the one replaced. */
  lemma {:induction false} ReplaceFirstAt(a: string, from: char, to: char, b: string)
    requires from !in a
    ensures ReplaceFirst(a + [from] + b, from, to) == a + [to] + b
  {
    if a != [] {
      assert (a + [from] + b)[1..] == a[1..] + [from] + b;
      ReplaceFirstAt(a[1..], from, to, b);
    }
  }

  lemma {:induction false} ReplaceFirstAbsent(s: string, from: char, to: char)
    requires from !in s
    ensures ReplaceFirst(s, from, to) == s
  {
    if s != [] {
      ReplaceFirstAbsent(s[1..], from, to);
    }
  }

  /** ASCII upper-casing of one character; other characters are kept. */
  function UpperChar(c: char): char
  {
    if 'a' <= c <= 'z' then (c as int - 'a' as int + 'A' as int) as char else c
  }

  /** `s.toUpperCase()` on the ASCII range. */
  function Upper(s: string): (r: string)
    ensures |r| == |s|
  {
    if s == [] then [] else [UpperChar(s[0])] + Upper(s[1..])
  }

  /** Position by position, `Upper` upper-cases each character, so no ASCII
      lower-case letter is left. */
  lemma {:induction false} UpperSpec(s: string)
    ensures forall i :: 0 <= i < |s| ==> Upper(s)[i] == UpperChar(s[i])
    ensures forall i :: 0 <= i < |s| ==> !('a' <= Upper(s)[i] <= 'z')
  {
    if s != [] {
      UpperSpec(s[1..]);
    }
  }

  lemma {:induction false} UpperAppend(a: string, b: string)
    ensures Upper(a + b) == Upper(a) + Upper(b)
  {
    if a != [] {
      assert (a + b)[1..] == a[1..] + b;
      UpperAppend(a[1..], b);
    } else {
      assert a + b == b;
    }
  }
}
