/**
 * String helpers shared by the client scripts and the server pages:
 * whitespace and trimming, ASCII case folding, substring search, joining and
 * the leading-integer reading behind JavaScript's parseInt and PHP's intval.
 * Strings are sequences of characters.
 */
module Text {
  import opened Wrappers

  /** The whitespace of JavaScript's `\s` and `trim` (line terminators included). */
  predicate IsSpace(c: char)
  {
    c in SpaceChars
  }

  const SpaceChars: set<char> :=
    {' ', '\t', '\n', '\r', '\U{B}', '\U{C}', '\U{A0}', '\U{FEFF}', '\U{2028}', '\U{2029}'}


  predicate NoEdgeSpace(s: string)
  {
    s == [] || (!IsSpace(s[0]) && !IsSpace(s[|s| - 1]))
  }

  function TrimStart(s: string): (r: string)
    ensures |r| <= |s| && r == s[|s| - |r|..]
    ensures r == [] || !IsSpace(r[0])
    ensures forall i :: 0 <= i < |s| - |r| ==> IsSpace(s[i])
  {
    if s != [] && IsSpace(s[0]) then TrimStart(s[1..]) else s
  }

  function TrimEnd(s: string): (r: string)
    ensures |r| <= |s| && r == s[..|r|]
    ensures r == [] || !IsSpace(r[|r| - 1])
    ensures forall i :: |r| <= i < |s| ==> IsSpace(s[i])
  {
    if s != [] && IsSpace(s[|s| - 1]) then TrimEnd(s[..|s| - 1]) else s
  }

  /** JavaScript's String.prototype.trim. */
  function Trim(s: string): (r: string)
    ensures NoEdgeSpace(r)
    ensures |r| <= |s|
  {
    TrimEnd(TrimStart(s))
  }

  /** Trimming only removes characters. */
  lemma TrimKeepsChars(s: string, c: char)
    ensures HasChar(Trim(s), c) ==> HasChar(s, c)
  {
    var a := TrimStart(s);
    var t := TrimEnd(a);
    var lo := |s| - |a|;
    assert t == s[lo..lo + |t|] by {
      assert a == s[lo..] && t == a[..|t|];
    }
    HasCharOfSlice(s, lo, lo + |t|, c);
  }

  lemma HasCharOfSlice(s: string, lo: int, hi: int, c: char)
    requires 0 <= lo <= hi <= |s|
    ensures HasChar(s[lo..hi], c) ==> HasChar(s, c)
  {
    if HasChar(s[lo..hi], c) {
      var i :| 0 <= i < hi - lo && s[lo..hi][i] == c;
      assert s[lo + i] == c;
    }
  }

  lemma TrimOfTrimmed(s: string)
    requires NoEdgeSpace(s)
    ensures Trim(s) == s
  {
  }

  function LowerChar(c: char): char
  {
    if 'A' <= c <= 'Z' then (c as int + 32) as char else c
  }

  /** toLowerCase restricted to ASCII letters. */
  function ToLower(s: string): (r: string)
    ensures |r| == |s|
    ensures forall i :: 0 <= i < |s| ==> r[i] == LowerChar(s[i])
  {
    if s == [] then [] else [LowerChar(s[0])] + ToLower(s[1..])
  }

  predicate StartsWith(s: string, p: string)
  {
    |p| <= |s| && s[..|p|] == p
  }

  predicate EndsWith(s: string, p: string)
  {
    |p| <= |s| && s[|s| - |p|..] == p
  }

  /** `s.includes(sub)` / `strpos(s, sub) !== false`. */
  predicate Contains(s: string, sub: string)
  {
    exists i: nat :: i <= |s| && OccursAt(s, sub, i)
  }

  predicate OccursAt(s: string, sub: string, i: nat)
  {
    i + |sub| <= |s| && s[i..i + |sub|] == sub
  }

  predicate HasChar(s: string, c: char)
  {
    exists i :: 0 <= i < |s| && s[i] == c
  }

  lemma HasCharConcat(a: string, b: string, c: char)
    ensures HasChar(a + b, c) <==> HasChar(a, c) || HasChar(b, c)
  {
    if HasChar(a + b, c) {
      var i :| 0 <= i < |a + b| && (a + b)[i] == c;
      if i >= |a| { assert b[i - |a|] == c; }
    }
    if HasChar(b, c) {
      var i :| 0 <= i < |b| && b[i] == c;
      assert (a + b)[|a| + i] == c;
    }
    if HasChar(a, c) {
      var i :| 0 <= i < |a| && a[i] == c;
      assert (a + b)[i] == c;
    }
  }

  lemma HasCharTail(s: string, c: char)
    requires s != []
    ensures HasChar(s, c) <==> s[0] == c || HasChar(s[1..], c)
  {
    assert s == [s[0]] + s[1..];
    HasCharConcat([s[0]], s[1..], c);
  }

  /** Deletes every character of `bad`, as a global regex replace with "" does. */
  function RemoveChars(s: string, bad: set<char>): (r: string)
  {
    if s == [] then []
    else if s[0] in bad then RemoveChars(s[1..], bad)
    else [s[0]] + RemoveChars(s[1..], bad)
  }

  /** What survives is exactly the characters of `s` outside `bad`. */
  lemma {:induction false} RemoveCharsSpec(s: string, bad: set<char>)
    ensures |RemoveChars(s, bad)| <= |s|
    ensures forall i :: 0 <= i < |RemoveChars(s, bad)| ==> RemoveChars(s, bad)[i] !in bad
    ensures forall c :: HasChar(RemoveChars(s, bad), c) <==> c !in bad && HasChar(s, c)
  {
    if s != [] {
      RemoveCharsSpec(s[1..], bad);
      var rest := RemoveChars(s[1..], bad);
      forall c ensures HasChar(RemoveChars(s, bad), c) <==> c !in bad && HasChar(s, c) {
        HasCharTail(s, c);
        if s[0] !in bad {
          HasCharConcat([s[0]], rest, c);
          assert [s[0]][0] == s[0];
          assert HasChar([s[0]], c) <==> s[0] == c;
        }
      }
      if s[0] !in bad {
        assert forall i :: 1 <= i < |RemoveChars(s, bad)| ==> RemoveChars(s, bad)[i] == rest[i - 1];
      }
    }
  }

  lemma {:induction false} RemoveCharsConcat(a: string, b: string, bad: set<char>)
    ensures RemoveChars(a + b, bad) == RemoveChars(a, bad) + RemoveChars(b, bad)
  {
    if a != [] {
      assert (a + b)[1..] == a[1..] + b;
      RemoveCharsConcat(a[1..], b, bad);
    } else {
      assert a + b == b;
    }
  }

  lemma {:induction false} RemoveCharsAll(s: string, bad: set<char>)
    requires forall i :: 0 <= i < |s| ==> s[i] in bad
    ensures RemoveChars(s, bad) == []
  {
    if s != [] {
      RemoveCharsAll(s[1..], bad);
    }
  }

  lemma RemoveCharsNoop(s: string, bad: set<char>)
    requires forall i :: 0 <= i < |s| ==> s[i] !in bad
    ensures RemoveChars(s, bad) == s
  {
  }

  /** Index of the first occurrence of `pat` in `s`, if any. */
  function FindFirst(s: string, pat: string): (r: Option<nat>)
    ensures r.Some? ==> OccursAt(s, pat, r.value)
    ensures r.Some? ==> forall j: nat :: j < r.value ==> !OccursAt(s, pat, j)
    ensures r.None? <==> !Contains(s, pat)
    decreases |s|
  {
    if |s| < |pat| then None
    else if s[..|pat|] == pat then
      assert OccursAt(s, pat, 0);
      Some(0)
    else
      ShiftOccurs(s, pat);
      assert !OccursAt(s, pat, 0);
      match FindFirst(s[1..], pat)
      case None =>
        forall i: nat | 1 <= i ensures !OccursAt(s, pat, i) {
          assert !OccursAt(s[1..], pat, i - 1);
        }
        None
      case Some(k) =>
        forall j: nat | 1 <= j <= k ensures !OccursAt(s, pat, j) {
          assert !OccursAt(s[1..], pat, j - 1);
        }
        Some(k + 1)
  }

  lemma ShiftOccurs(s: string, pat: string)
    requires s != []
    ensures forall i: nat :: OccursAt(s[1..], pat, i) <==> OccursAt(s, pat, i + 1)
  {
    forall i: nat ensures OccursAt(s[1..], pat, i) <==> OccursAt(s, pat, i + 1) {
      if i + 1 + |pat| <= |s| {
        assert s[1..][i..i + |pat|] == s[i + 1..i + 1 + |pat|];
      }
    }
  }

  /** `s.replace(pat, rep)` with a string pattern: only the first occurrence is replaced. */
  function ReplaceFirst(s: string, pat: string, rep: string): (r: string)
  {
    match FindFirst(s, pat)
    case None => s
    case Some(k) => s[..k] + rep + s[k + |pat|..]
  }

  /** Array.prototype.join / implode. */
  function Join(parts: seq<string>, sep: string): (r: string)
    ensures parts == [] ==> r == []
  {
    if parts == [] then []
    else if |parts| == 1 then parts[0]
    else parts[0] + sep + Join(parts[1..], sep)
  }

  predicate IsDigit(c: char)
  {
    '0' <= c <= '9'
  }

  predicate AllDigits(s: string)
  {
    forall i :: 0 <= i < |s| ==> IsDigit(s[i])
  }

  function DigitsValue(s: string): (n: nat)
    requires AllDigits(s)
  {
    if s == [] then 0 else DigitsValue(s[..|s| - 1]) * 10 + (s[|s| - 1] as int - '0' as int)
  }

  /** Length of the longest prefix of `s` made of decimal digits. */
  function DigitRun(s: string): (n: nat)
    ensures n <= |s| && AllDigits(s[..n])
    ensures n < |s| ==> !IsDigit(s[n])
  {
    if s != [] && IsDigit(s[0]) then
      assert s[..1 + DigitRun(s[1..])] == [s[0]] + s[1..][..DigitRun(s[1..])];
      1 + DigitRun(s[1..])
    else 0
  }

  predicate IsHexDigit(c: char)
  {
    IsDigit(c) || 'a' <= c <= 'f' || 'A' <= c <= 'F'
  }

  predicate AllHexDigits(s: string)
  {
    forall i :: 0 <= i < |s| ==> IsHexDigit(s[i])
  }

  function HexDigitValue(c: char): (n: nat)
    requires IsHexDigit(c)
    ensures n < 16
  {
    if IsDigit(c) then c as int - '0' as int
    else if 'a' <= c <= 'f' then c as int - 'a' as int + 10
    else c as int - 'A' as int + 10
  }

  function HexValue(s: string): nat
    requires AllHexDigits(s)
  {
    if s == [] then 0 else HexValue(s[..|s| - 1]) * 16 + HexDigitValue(s[|s| - 1])
  }

  /** Length of the longest prefix of `s` made of hexadecimal digits. */
  function HexRun(s: string): (n: nat)
    ensures n <= |s| && AllHexDigits(s[..n])
    ensures n < |s| ==> !IsHexDigit(s[n])
  {
    if s != [] && IsHexDigit(s[0]) then
      assert s[..1 + HexRun(s[1..])] == [s[0]] + s[1..][..HexRun(s[1..])];
      1 + HexRun(s[1..])
    else 0
  }

  /** A "0x" or "0X" start, which makes parseInt without a radix read base 16. */
  predicate HexPrefixed(u: string)
  {
    |u| >= 2 && u[0] == '0' && (u[1] == 'x' || u[1] == 'X')
  }

  /**
   * Number.parseInt without a radix: leading whitespace, an optional sign,
   * then either "0x"/"0X" and the longest run of hexadecimal digits, or the
   * longest run of decimal digits; None when that run is empty (NaN).
   */
  function LeadingInt(s: string): (r: Option<int>)
    ensures var u := SignFree(TrimStart(s));
      r.None? <==> (if HexPrefixed(u) then HexRun(u[2..]) == 0 else DigitRun(u) == 0)
  {
    var t := TrimStart(s);
    match Magnitude(SignFree(t))
      case None => None
      case Some(v) => Some(if t != [] && t[0] == '-' then -v else v)
  }

  /** The unsigned number that starts sign-free text, in base 16 after "0x"/"0X", else in base 10. */
  function Magnitude(u: string): Option<int>
  {
    if HexPrefixed(u) then
      var n := HexRun(u[2..]);
      if n == 0 then None else Some(HexValue(u[2..][..n]))
    else
      var n := DigitRun(u);
      if n == 0 then None else Some(DigitsValue(u[..n]))
  }

  /** A run of hexadecimal digits after "0x" or "0X" reads as its base-16 value. */
  lemma LeadingIntOfHex(h: string, x: char)
    requires AllHexDigits(h) && h != []
    requires x == 'x' || x == 'X'
    ensures LeadingInt(['0', x] + h) == Some(HexValue(h))
  {
    var u := ['0', x] + h;
    assert TrimStart(u) == u by {
      NoLeadingSpace(u);
    }
    assert SignFree(u) == u;
    assert Magnitude(u) == Some(HexValue(h)) by {
      MagnitudeOfHex(h, x);
    }
  }

  /** A minus sign negates the reading and a plus sign leaves it alone. */
  lemma SignedReading(u: string)
    requires u != [] && !IsSpace(u[0]) && u[0] != '-' && u[0] != '+'
    ensures LeadingInt("-" + u) == (if LeadingInt(u).Some? then Some(-LeadingInt(u).value) else None)
    ensures LeadingInt("+" + u) == LeadingInt(u)
  {
    NoLeadingSpace(u);
    NoLeadingSpace("-" + u);
    NoLeadingSpace("+" + u);
    assert ("-" + u)[1..] == u;
    assert ("+" + u)[1..] == u;
  }

  lemma NoLeadingSpace(s: string)
    requires s != [] && !IsSpace(s[0])
    ensures TrimStart(s) == s
  {
  }

  lemma MagnitudeOfHex(h: string, x: char)
    requires AllHexDigits(h) && h != []
    requires x == 'x' || x == 'X'
    ensures Magnitude(['0', x] + h) == Some(HexValue(h))
  {
    assert (['0', x] + h)[2..] == h;
    HexRunOfHex(h);
    assert h[..|h|] == h;
  }

  lemma {:induction false} HexRunOfHex(s: string)
    requires AllHexDigits(s)
    ensures HexRun(s) == |s|
  {
    if s != [] {
      HexRunOfHex(s[1..]);
    }
  }

  /** "0x" with no hexadecimal digit after it is NaN, not 0. */
  lemma BareHexPrefixIsNaN(rest: string)
    requires rest == [] || !IsHexDigit(rest[0])
    ensures LeadingInt("0x" + rest) == None
  {
    var s := "0x" + rest;
    assert TrimStart(s) == s by {
      assert !IsSpace(s[0]);
      NoLeadingSpace(s);
    }
    assert SignFree(s) == s;
    assert Magnitude(s) == None by {
      assert HexPrefixed(s) && s[2..] == rest;
    }
  }

  /** parseInt("0x1A") is 26, where a decimal-only reading would give 0. */
  lemma HexSample()
    ensures LeadingInt("0x1A") == Some(26)
  {
    var h := ['1', 'A'];
    assert AllHexDigits(h) by {
      assert IsHexDigit(h[0]) && IsHexDigit(h[1]);
    }
    HexValueOneA();
    LeadingIntOfHex(h, 'x');
    assert ['0', 'x'] + h == "0x1A";
  }

  lemma HexValueOneA()
    ensures AllHexDigits(['1', 'A']) && HexValue(['1', 'A']) == 26
  {
    var h := ['1', 'A'];
    assert IsHexDigit(h[0]) && IsHexDigit(h[1]);
    assert h[..1] == ['1'] && ['1'][..0] == [];
  }

  function SignFree(t: string): string
  {
    if t != [] && (t[0] == '-' || t[0] == '+') then t[1..] else t
  }

  /** `s.split(d)` for a one-character separator. */
  function Split(s: string, d: char): (r: seq<string>)
    ensures |r| >= 1
    ensures forall k :: 0 <= k < |r| ==> !HasChar(r[k], d)
  {
    if s == [] then [[]]
    else
      var rest := Split(s[1..], d);
      if s[0] == d then [[]] + rest
      else
        assert forall k :: 1 <= k < |rest| ==> ([[s[0]] + rest[0]] + rest[1..])[k] == rest[k];
        [[s[0]] + rest[0]] + rest[1..]
  }

  /** Splitting and re-joining with the same separator gives the text back. */
  lemma {:induction false} JoinSplit(s: string, d: char)
    ensures Join(Split(s, d), [d]) == s
  {
    if s != [] {
      JoinSplit(s[1..], d);
      var rest := Split(s[1..], d);
      if s[0] != d {
        if |rest| > 1 {
          assert ([[s[0]] + rest[0]] + rest[1..])[1..] == rest[1..];
        }
      } else {
        assert ([[]] + rest)[1..] == rest;
      }
    }
  }

  /** Joining fields that do not contain the separator and splitting again gives the fields back. */
  lemma {:induction false} SplitJoin(parts: seq<string>, d: char)
    requires |parts| >= 1
    requires forall k :: 0 <= k < |parts| ==> !HasChar(parts[k], d)
    ensures Split(Join(parts, [d]), d) == parts
    decreases |parts|, |parts[0]|
  {
    var p := parts[0];
    if p == [] {
      if |parts| > 1 {
        SplitJoin(parts[1..], d);
        assert Join(parts, [d]) == [d] + Join(parts[1..], [d]);
        assert Join(parts, [d])[1..] == Join(parts[1..], [d]);
        assert parts == [[]] + parts[1..];
      }
    } else {
      assert p[0] != d;
      var tail := [p[1..]] + parts[1..];
      assert tail[0] == p[1..];
      forall k | 0 <= k < |tail| ensures !HasChar(tail[k], d) {
        if k > 0 {
          assert tail[k] == parts[k];
        }
      }
      SplitJoin(tail, d);
      if |parts| == 1 {
        assert Join(parts, [d]) == p;
        assert Join(tail, [d]) == p[1..];
        assert p == [p[0]] + p[1..];
      } else {
        assert Join(parts, [d]) == p + [d] + Join(parts[1..], [d]);
        assert Join(tail, [d]) == p[1..] + [d] + Join(parts[1..], [d]);
        assert Join(parts, [d])[1..] == Join(tail, [d]);
        assert tail[1..] == parts[1..];
        assert [p[0]] + p[1..] == p;
        assert ([[p[0]] + tail[0]] + tail[1..]) == [p] + parts[1..] == parts;
      }
    }
  }
}
