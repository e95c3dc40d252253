/**
 * The few pieces of Ruby and Rails core behaviour the adapter relies on:
 * truthiness, `blank?`/`present?`, `to_s`, `to_i`/`to_f` on decimal text,
 * `String#split` with a one-character pattern, `Array#join` and `Float#round`.
 */
module RubyCore {
  import opened Wrappers

  /** Ruby truthiness of an optional flag: only `nil` and `false` are falsy. */
  function Truthy(v: Option<bool>): (r: bool)
    ensures r <==> v != None && v != Some(false)
  {
    v.Some? && v.value
  }

  /** Ruby `a || b` where `a` is nil or a string. */
  function OrElse(a: Option<string>, b: string): (r: string)
    ensures a.Some? ==> r == a.value
    ensures a.None? ==> r == b
  {
    if a.Some? then a.value else b
  }

  /** The characters of the POSIX class [[:space:]] on a Unicode string (Rails' `blank?`). */
  function IsSpace(c: char): (r: bool)
    ensures c == ' ' || c == '\t' || c == '\n' || c == '\r' ==> r
    ensures IsDigit(c) || c == 'x' ==> !r
  {
    var n := c as int;
    (9 <= n <= 13) || n == 32 || n == 0x85 || n == 0xA0 || n == 0x1680
    || (0x2000 <= n <= 0x200A) || n == 0x2028 || n == 0x2029
    || n == 0x202F || n == 0x205F || n == 0x3000
  }

  /** `String#blank?`: empty or white space only. */
  function Blank(s: string): (r: bool)
    ensures |s| == 0 ==> r
    ensures |s| > 0 && !IsSpace(s[0]) ==> !r
    ensures r ==> forall i :: 0 <= i < |s| ==> IsSpace(s[i])
  {
    forall i :: 0 <= i < |s| ==> IsSpace(s[i])
  }

  /** `present?` on a value that is `nil` or a string. */
  function Present(v: Option<string>): (r: bool)
    ensures r <==> v.Some? && exists i :: 0 <= i < |v.value| && !IsSpace(v.value[i])
    ensures v == Some("") ==> !r
  {
    v.Some? && !Blank(v.value)
  }

  /** `to_s` on a value that is `nil` or a string (`nil.to_s` is ""). */
  function ToS(v: Option<string>): (r: string)
    ensures v.Some? ==> r == v.value
    ensures v.None? ==> r == "" && ToI(r) == 0
  {
    if v.Some? then v.value else ""
  }

  predicate IsDigit(c: char) {
    '0' <= c <= '9'
  }

  function DigitValue(c: char): nat {
    if IsDigit(c) then c as int - '0' as int else 0
  }

  function DigitChar(d: nat): char
    requires d < 10
  {
    ('0' as int + d) as char
  }

  /** The longest prefix of `s` made of decimal digits. */
  function LeadingDigits(s: string): (r: string)
    ensures r <= s
    ensures forall i :: 0 <= i < |r| ==> IsDigit(r[i])
    ensures |r| == |s| || !IsDigit(s[|r|])
  {
    if |s| == 0 || !IsDigit(s[0]) then "" else [s[0]] + LeadingDigits(s[1..])
  }

  /** The number a string of decimal digits denotes, most significant digit first. */
  function DigitsValue(ds: string): nat {
    if |ds| == 0 then 0 else 10 * DigitsValue(ds[..|ds| - 1]) + DigitValue(ds[|ds| - 1])
  }

  /** `String#to_i` on unsigned decimal text: the value of the leading digits, 0 when there are none. */
  function ToI(s: string): (r: nat)
    ensures |s| == 0 || !IsDigit(s[0]) ==> r == 0
    ensures |s| > 0 && IsDigit(s[0]) && (|s| == 1 || !IsDigit(s[1])) ==> r == DigitValue(s[0])
  {
    var d := LeadingDigits(s);
    if |s| > 0 && IsDigit(s[0]) && (|s| == 1 || !IsDigit(s[1])) then
      assert |s| == 1 || s[1..][0] == s[1];
      assert LeadingDigits(s[1..]) == "";
      assert d == [s[0]] && d[..|d| - 1] == [];
      assert DigitsValue(d) == 10 * DigitsValue([]) + DigitValue(s[0]);
      DigitsValue(d)
    else DigitsValue(d)
  }

  /** `String#to_f` on text without a fraction or an exponent. */
  function ToF(s: string): (r: real)
    ensures r >= 0.0 && r == ToI(s) as real
  {
    ToI(s) as real
  }

  /** `to_i` on a value that is `nil` (0) or a string. */
  function NilToI(v: Option<string>): (r: nat)
    ensures v.None? ==> r == 0
    ensures v.Some? ==> r == ToI(v.value)
  {
    if v.Some? then ToI(v.value) else 0
  }

  /** `to_f` on a value that is `nil` (0.0) or a string. */
  function NilToF(v: Option<string>): (r: real)
    ensures v.None? ==> r == 0.0
    ensures v.Some? ==> r == ToF(v.value)
  {
    if v.Some? then ToF(v.value) else 0.0
  }

  lemma NilToFIsNilToI(v: Option<string>)
    ensures NilToF(v) == NilToI(v) as real
  {
  }

  /** Decimal notation of a natural number (`Integer#to_s`). */
  function Show(n: nat): (r: string)
    ensures |r| >= 1
    ensures forall i :: 0 <= i < |r| ==> IsDigit(r[i])
  {
    if n < 10 then [DigitChar(n)] else Show(n / 10) + [DigitChar(n % 10)]
  }

  /** `Float#round`: to the nearest integer, halves away from zero. */
  function RubyRound(v: real): (r: int)
    ensures v >= 0.0 ==> r as real - 0.5 <= v < r as real + 0.5
    ensures v < 0.0 ==> r as real - 0.5 < v <= r as real + 0.5
  {
    if v >= 0.0 then (v + 0.5).Floor else -((-v + 0.5).Floor)
  }

  /** Position of the first occurrence of `c` in `s`. */
  function IndexOf(s: string, c: char): (r: Option<nat>)
    ensures r.None? <==> c !in s
    ensures r.Some? ==> r.value < |s| && s[r.value] == c && c !in s[..r.value]
  {
    if |s| == 0 then None
    else if s[0] == c then Some(0)
    else
      match IndexOf(s[1..], c)
      case None => None
      case Some(i) =>
        assert s[..i + 1] == [s[0]] + s[1..][..i];
        Some(i + 1)
  }

  /** The first occurrence of `c` is the one with no `c` before it. */
  lemma IndexOfAt(s: string, c: char, i: nat)
    requires i < |s| && s[i] == c && c !in s[..i]
    ensures IndexOf(s, c) == Some(i)
  {
    var r := IndexOf(s, c);
    assert r.Some?;
    var j := r.value;
    forall m | 0 <= m < i
      ensures s[m] != c
    {
      assert s[..i][m] == s[m];
    }
    forall m | 0 <= m < j
      ensures s[m] != c
    {
      assert s[..j][m] == s[m];
    }
  }

  /** Position of the last occurrence of `c` in `s`. */
  function LastIndexOf(s: string, c: char): (r: Option<nat>)
    ensures r.None? <==> c !in s
    ensures r.Some? ==> r.value < |s| && s[r.value] == c && c !in s[r.value + 1..]
  {
    if |s| == 0 then None
    else if s[|s| - 1] == c then Some(|s| - 1)
    else
      assert s == s[..|s| - 1] + [s[|s| - 1]];
      LastIndexOf(s[..|s| - 1], c)
  }

  /** The pieces of `s` between occurrences of `sep`, empty pieces included. */
  function Fields(s: string, sep: char): (r: seq<string>)
    ensures |r| >= 1
    ensures forall k :: 0 <= k < |r| ==> sep !in r[k]
    ensures r[0] <= s && (|r[0]| == |s| || s[|r[0]|] == sep)
    decreases |s|
  {
    match IndexOf(s, sep)
    case None => [s]
    case Some(i) => [s[..i]] + Fields(s[i + 1..], sep)
  }

  /** Removes the empty strings at the end of a list of pieces. */
  function DropTrailingEmpty(parts: seq<string>): (r: seq<string>)
    ensures r <= parts
    ensures r == [] || r[|r| - 1] != ""
    ensures forall k :: |r| <= k < |parts| ==> parts[k] == ""
  {
    if |parts| == 0 || parts[|parts| - 1] != "" then parts
    else DropTrailingEmpty(parts[..|parts| - 1])
  }

  /**
   * `String#split` with a one-character string pattern other than " " and no
   * limit: the fields between separators, trailing empty fields removed.
   */
  function Split(s: string, sep: char): (r: seq<string>)
    ensures forall k :: 0 <= k < |r| ==> sep !in r[k]
    ensures r == [] || r[|r| - 1] != ""
  {
    DropTrailingEmpty(Fields(s, sep))
  }

  /** `Array#join` with no separator. */
  function Join(parts: seq<string>): (r: string)
    ensures |parts| > 0 ==> parts[0] <= r
    ensures forall k :: 0 <= k < |parts| ==> |parts[k]| <= |r|
    ensures forall k :: 0 <= k < |parts| && parts[k] != "" ==> r != ""
  {
    if |parts| == 0 then "" else parts[0] + Join(parts[1..])
  }

  /** `s` with every occurrence of `c` deleted: the reference for split-then-join. */
  function Remove(s: string, c: char): string {
    if |s| == 0 then "" else (if s[0] == c then "" else [s[0]]) + Remove(s[1..], c)
  }

  /** Array element `k` as parallel assignment `x, y = parts` reads it: `nil` past the end. */
  function Nth(parts: seq<string>, k: nat): (r: Option<string>)
    ensures r.Some? <==> k < |parts|
    ensures r.Some? ==> r.value == parts[k]
  {
    if k < |parts| then Some(parts[k]) else None
  }

  // ---------------------------------------------------------------------
  // to_i

  /** The leading digits of a string are determined by where its first non-digit stands. */
  lemma {:induction false} LeadingDigitsUnique(s: string, d: string)
    requires d <= s
    requires forall i :: 0 <= i < |d| ==> IsDigit(d[i])
    requires |d| == |s| || !IsDigit(s[|d|])
    ensures LeadingDigits(s) == d
  {
    if |d| > 0 {
      LeadingDigitsUnique(s[1..], d[1..]);
      assert d == [s[0]] + d[1..];
    }
  }

  /** Cutting a string at a non-digit, or not at all, does not change its `to_i`. */
  lemma ToIPrefix(s: string, p: string)
    requires p <= s
    requires |p| == |s| || !IsDigit(s[|p|])
    ensures ToI(p) == ToI(s)
  {
    var d := LeadingDigits(s);
    assert |d| <= |p|;
    assert d <= p;
    LeadingDigitsUnique(p, d);
  }

  lemma {:induction false} DigitsValueShow(n: nat)
    ensures DigitsValue(Show(n)) == n
  {
    if n >= 10 {
      var s := Show(n);
      assert s[..|s| - 1] == Show(n / 10);
      DigitsValueShow(n / 10);
    }
  }

  /** `to_i` reads back the decimal notation of a number, whatever non-digit text follows it. */
  lemma ToIShow(n: nat, rest: string)
    requires rest == [] || !IsDigit(rest[0])
    ensures ToI(Show(n) + rest) == n
  {
    LeadingDigitsUnique(Show(n) + rest, Show(n));
    DigitsValueShow(n);
  }

  // ---------------------------------------------------------------------
  // split and join

  lemma {:induction false} RemoveAppend(a: string, b: string, c: char)
    ensures Remove(a + b, c) == Remove(a, c) + Remove(b, c)
  {
    if |a| > 0 {
      assert (a + b)[1..] == a[1..] + b;
      RemoveAppend(a[1..], b, c);
    } else {
      assert a + b == b;
    }
  }

  lemma {:induction false} RemoveAbsent(s: string, c: char)
    ensures c !in s ==> Remove(s, c) == s
  {
    if |s| > 0 {
      RemoveAbsent(s[1..], c);
      assert s == [s[0]] + s[1..];
    }
  }

  lemma {:induction false} RemoveRemoves(s: string, c: char)
    ensures c !in Remove(s, c)
  {
    if |s| > 0 {
      RemoveRemoves(s[1..], c);
    }
  }

  lemma {:induction false} JoinAppend(p: seq<string>, q: seq<string>)
    ensures Join(p + q) == Join(p) + Join(q)
  {
    if |p| == 0 {
      assert p + q == q;
    } else {
      assert (p + q)[1..] == p[1..] + q;
      JoinAppend(p[1..], q);
    }
  }

  /** Joining the fields back together deletes exactly the separators. */
  lemma {:induction false} JoinFields(s: string, sep: char)
    ensures Join(Fields(s, sep)) == Remove(s, sep)
    decreases |s|
  {
    var idx := IndexOf(s, sep);
    if idx.None? {
      RemoveAbsent(s, sep);
      assert Fields(s, sep) == [s];
    } else {
      var i := idx.value;
      var pre, rest := s[..i], s[i + 1..];
      var fs := Fields(rest, sep);
      JoinFields(rest, sep);
      assert Fields(s, sep) == [pre] + fs;
      JoinCons(pre, fs);
      RemoveSplitAt(s, i, sep);
    }
  }

  lemma JoinCons(p: string, fs: seq<string>)
    ensures Join([p] + fs) == p + Join(fs)
  {
    assert ([p] + fs)[1..] == fs;
  }

  /** Deleting `c` around an occurrence of `c` at position `i`. */
  lemma RemoveSplitAt(s: string, i: nat, c: char)
    requires i < |s| && s[i] == c && c !in s[..i]
    ensures Remove(s, c) == s[..i] + Remove(s[i + 1..], c)
  {
    var pre, post := s[..i], s[i + 1..];
    assert s == pre + ([c] + post);
    RemoveAppend(pre, [c] + post, c);
    RemoveAbsent(pre, c);
    assert Remove([c] + post, c) == Remove(post, c) by {
      assert ([c] + post)[1..] == post;
    }
  }

  lemma {:induction false} JoinDropTrailingEmpty(parts: seq<string>)
    ensures Join(DropTrailingEmpty(parts)) == Join(parts)
  {
    if |parts| > 0 && parts[|parts| - 1] == "" {
      var init := parts[..|parts| - 1];
      JoinDropTrailingEmpty(init);
      assert parts == init + [""];
      JoinAppend(init, [""]);
    }
  }

  /** `s.split(sep).join` deletes every `sep` from `s` and keeps everything else in order. */
  lemma JoinSplit(s: string, sep: char)
    ensures Join(Split(s, sep)) == Remove(s, sep)
    ensures sep !in Join(Split(s, sep))
  {
    JoinDropTrailingEmpty(Fields(s, sep));
    JoinFields(s, sep);
    RemoveRemoves(s, sep);
  }

  /** Dropping trailing empty fields never changes what `to_i` reads from a position. */
  lemma NthDropTrailingEmpty(parts: seq<string>, k: nat)
    ensures NilToI(Nth(DropTrailingEmpty(parts), k)) == NilToI(Nth(parts, k))
  {
    var r := DropTrailingEmpty(parts);
    if |r| <= k < |parts| {
      assert parts[k] == "";
      assert LeadingDigits("") == "";
    }
  }

  /**
   * `x, y = s.split(sep)` followed by `x.to_i` and `y.to_i` reads the leading number of `s`
   * and the leading number after its first `sep` (0 when there is no `sep`).
   */
  lemma SplitLeadingNumbers(s: string, sep: char)
    requires !IsDigit(sep)
    ensures NilToI(Nth(Split(s, sep), 0)) == ToI(s)
    ensures NilToI(Nth(Split(s, sep), 1)) == (match IndexOf(s, sep)
                                              case None => 0
                                              case Some(i) => ToI(s[i + 1..]))
  {
    SplitFirstNumber(s, sep);
    SplitSecondNumber(s, sep);
  }

  lemma SplitFirstNumber(s: string, sep: char)
    requires !IsDigit(sep)
    ensures NilToI(Nth(Split(s, sep), 0)) == ToI(s)
  {
    var f := Fields(s, sep);
    NthDropTrailingEmpty(f, 0);
    assert Nth(f, 0) == Some(f[0]);
    ToIPrefix(s, f[0]);
  }

  lemma SplitSecondNumber(s: string, sep: char)
    requires !IsDigit(sep)
    ensures NilToI(Nth(Split(s, sep), 1)) == (match IndexOf(s, sep)
                                              case None => 0
                                              case Some(i) => ToI(s[i + 1..]))
  {
    var f := Fields(s, sep);
    NthDropTrailingEmpty(f, 1);
    match IndexOf(s, sep)
    case None =>
      assert f == [s];
    case Some(i) =>
      var rest := Fields(s[i + 1..], sep);
      assert f == [s[..i]] + rest;
      assert Nth(f, 1) == Some(rest[0]);
      ToIPrefix(s[i + 1..], rest[0]);
  }

  // ---------------------------------------------------------------------
  // Float#round

  /** `(a + c / 2.0).round` is the integer `(2a + c + 1) / 2`: halves are rounded up. */
  lemma RoundHalfSum(a: nat, c: nat)
    ensures RubyRound(a as real + c as real / 2.0) == (2 * a + c + 1) / 2
  {
    var n := 2 * a + c + 1;
    var q, m := n / 2, n % 2;
    assert n == 2 * q + m && 0 <= m < 2;
    var v := a as real + c as real / 2.0;
    assert v + 0.5 == n as real / 2.0;
    assert n as real / 2.0 == q as real + m as real / 2.0;
    assert q as real <= v + 0.5 < q as real + 1.0;
  }
}
