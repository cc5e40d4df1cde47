/**
 * The JavaScript string operations the application relies on, stated over
 * `seq<char>`: the `\s` / `trim()` whitespace set, the `\w` word characters,
 * `split` on one character, `join`, `substring`, `Number.prototype.toString(radix)`
 * and the `a || b` defaulting of possibly missing values.
 */
module JsText {
  import opened Wrappers

  /** JavaScript WhiteSpace and LineTerminator characters: what `trim()` strips and `\s` matches. */
  predicate IsSpace(c: char) {
    var n := c as int;
    (9 <= n <= 13) || n == 0x20 || n == 0xA0 || n == 0x1680 || (0x2000 <= n <= 0x200A)
    || n == 0x2028 || n == 0x2029 || n == 0x202F || n == 0x205F || n == 0x3000 || n == 0xFEFF
  }

  /** The regular-expression class `\w`: `[A-Za-z0-9_]`. */
  predicate IsWordChar(c: char) {
    ('a' <= c <= 'z') || ('A' <= c <= 'Z') || ('0' <= c <= '9') || c == '_'
  }

  /** A string with no whitespace at either end (what `trim()` produces). */
  predicate IsTrimmed(s: string) {
    s == [] || (!IsSpace(s[0]) && !IsSpace(s[|s| - 1]))
  }

  function TrimStart(s: string): (r: string)
    ensures |r| <= |s| && r == s[|s| - |r|..]
    ensures r == [] || !IsSpace(r[0])
    ensures forall i :: 0 <= i < |s| - |r| ==> IsSpace(s[i])
  {
    if s != [] && IsSpace(s[0]) then TrimStart(s[1..]) else s
  }

  function TrimEnd(s: string): (r: string)
    ensures |r| <= |s| && r == s[..|r|]
    ensures r == [] || !IsSpace(r[|r| - 1])
    ensures forall i :: |r| <= i < |s| ==> IsSpace(s[i])
  {
    if s != [] && IsSpace(s[|s| - 1]) then TrimEnd(s[..|s| - 1]) else s
  }

  /** `String.prototype.trim`. */
  function Trim(s: string): (r: string)
    ensures IsTrimmed(r)
    ensures |r| <= |s|
    ensures IsTrimmed(s) ==> r == s
  {
    TrimFacts(s);
    TrimEnd(TrimStart(s))
  }

  /** `trim()` gives the empty string exactly when the string is all whitespace. */
  lemma TrimBlank(s: string)
    ensures Trim(s) == [] <==> forall i :: 0 <= i < |s| ==> IsSpace(s[i])
  {
    TrimFacts(s);
  }

  lemma TrimFacts(s: string)
    ensures var r := TrimEnd(TrimStart(s));
            && IsTrimmed(r)
            && (r == [] <==> forall i :: 0 <= i < |s| ==> IsSpace(s[i]))
            && (IsTrimmed(s) ==> r == s)
  {
    TrimEndsTrimmed(s);
    TrimEmptyWhenBlank(s);
    if IsTrimmed(s) {
      TrimKeepsTrimmed(s);
    }
  }

  lemma TrimEndsTrimmed(s: string)
    ensures IsTrimmed(TrimEnd(TrimStart(s)))
  {
    var l := TrimStart(s);
    var r := TrimEnd(l);
    if r != [] {
      assert r[0] == l[0];
    }
  }

  lemma TrimEmptyWhenBlank(s: string)
    ensures TrimEnd(TrimStart(s)) == [] <==> forall i :: 0 <= i < |s| ==> IsSpace(s[i])
  {
    var l := TrimStart(s);
    var k := |s| - |l|;
    if TrimEnd(l) != [] {
      assert s[k] == l[0];
    }
  }

  lemma TrimKeepsTrimmed(s: string)
    requires IsTrimmed(s)
    ensures TrimEnd(TrimStart(s)) == s
  {
    if s != [] {
      assert TrimStart(s) == s;
    }
  }

  /** `Array.prototype.join(sep)`. */
  function Join(xs: seq<string>, sep: string): string
  {
    if |xs| == 0 then "" else if |xs| == 1 then xs[0] else xs[0] + sep + Join(xs[1..], sep)
  }

  lemma JoinCons(x: string, ys: seq<string>, sep: string)
    ensures Join([x] + ys, sep) == if ys == [] then x else x + sep + Join(ys, sep)
  {
    assert ([x] + ys)[1..] == ys;
  }

  /** Joining two non-empty lists is joining their joins. */
  lemma {:induction false} JoinConcat(a: seq<string>, b: seq<string>, sep: string)
    requires a != [] && b != []
    ensures Join(a + b, sep) == Join(a, sep) + sep + Join(b, sep)
  {
    if |a| == 1 {
      JoinCons(a[0], b, sep);
      assert a + b == [a[0]] + b;
    } else {
      JoinConcat(a[1..], b, sep);
      assert a + b == [a[0]] + (a[1..] + b);
      JoinCons(a[0], a[1..] + b, sep);
      JoinCons(a[0], a[1..], sep);
      assert a == [a[0]] + a[1..];
    }
  }

  /** The join of a prefix of a list is a prefix of the join of the list. */
  lemma {:induction false} JoinPrefix(xs: seq<string>, k: nat, sep: string)
    requires k <= |xs|
    ensures |Join(xs[..k], sep)| <= |Join(xs, sep)|
    ensures Join(xs[..k], sep) == Join(xs, sep)[..|Join(xs[..k], sep)|]
  {
    if k == 0 {
    } else if k == |xs| {
      assert xs[..k] == xs;
    } else {
      JoinConcat(xs[..k], xs[k..], sep);
      assert xs[..k] + xs[k..] == xs;
    }
  }

  /** `String.prototype.split(c)` for a one-character separator. */
  function SplitOn(s: string, c: char): (r: seq<string>)
    ensures |r| >= 1
    ensures forall i :: 0 <= i < |r| ==> c !in r[i]
  {
    if s == [] then [""]
    else
      var rest := SplitOn(s[1..], c);
      if s[0] == c then [""] + rest else [[s[0]] + rest[0]] + rest[1..]
  }

  /** Splitting on `c` and joining with `c` gives back the string. */
  lemma {:induction false} SplitOnJoin(s: string, c: char)
    ensures Join(SplitOn(s, c), [c]) == s
  {
    if s != [] {
      var rest := SplitOn(s[1..], c);
      SplitOnJoin(s[1..], c);
      if s[0] == c {
        JoinCons("", rest, [c]);
      } else {
        JoinCons([s[0]] + rest[0], rest[1..], [c]);
        JoinCons(rest[0], rest[1..], [c]);
        assert rest == [rest[0]] + rest[1..];
      }
    }
  }

  /** Text without the separator splits into itself alone. */
  lemma {:induction false} SplitOnWithout(x: string, c: char)
    requires c !in x
    ensures SplitOn(x, c) == [x]
  {
    if x != [] {
      SplitOnWithout(x[1..], c);
      assert [x[0]] + x[1..] == x;
    }
  }

  /** A separator-free piece followed by the separator splits off as the first piece. */
  lemma {:induction false} SplitOnPiece(x: string, y: string, c: char)
    requires c !in x
    ensures SplitOn(x + [c] + y, c) == [x] + SplitOn(y, c)
  {
    var s := x + [c] + y;
    if x == [] {
      assert s[0] == c && s[1..] == y;
    } else {
      assert s[0] == x[0] && s[1..] == x[1..] + [c] + y;
      SplitOnPiece(x[1..], y, c);
      assert [x[0]] + x[1..] == x;
    }
  }

  /** Joining separator-free pieces with `c` and splitting on `c` gives the pieces back. */
  lemma {:induction false} JoinSplitOn(ps: seq<string>, c: char)
    requires ps != [] && forall i :: 0 <= i < |ps| ==> c !in ps[i]
    ensures SplitOn(Join(ps, [c]), c) == ps
  {
    if |ps| == 1 {
      SplitOnWithout(ps[0], c);
    } else {
      JoinSplitOn(ps[1..], c);
      SplitOnPiece(ps[0], Join(ps[1..], [c]), c);
      assert ps == [ps[0]] + ps[1..];
    }
  }

  function Min(a: int, b: int): int { if a <= b then a else b }
  function Max(a: int, b: int): int { if a <= b then b else a }

  /** `String.prototype.substring(start, end)`: both ends clamped to the string, then ordered. */
  function Substring(s: string, start: int, end: int): (r: string)
    ensures var a, b := Min(Max(start, 0), |s|), Min(Max(end, 0), |s|);
            r == s[Min(a, b)..Max(a, b)]
  {
    var a, b := Min(Max(start, 0), |s|), Min(Max(end, 0), |s|);
    s[Min(a, b)..Max(a, b)]
  }

  /** The digit for `d` in `Number.prototype.toString(radix)`: `0-9` then `a-z`. */
  function Digit(d: nat): (c: char)
    requires d < 36
  {
    if d < 10 then ('0' as int + d) as char else ('a' as int + d - 10) as char
  }

  predicate IsDigit(c: char) { ('0' <= c <= '9') || ('a' <= c <= 'z') }

  function DigitValue(c: char): nat
  {
    if '0' <= c <= '9' then (c as int - '0' as int) as nat
    else if 'a' <= c <= 'z' then (c as int - 'a' as int + 10) as nat
    else 0
  }

  /** `n.toString(radix)` for a non-negative integer `n`. */
  function NatToRadix(n: nat, radix: nat): (r: string)
    requires 2 <= radix <= 36
    ensures |r| >= 1
    ensures forall i :: 0 <= i < |r| ==> IsDigit(r[i]) && DigitValue(r[i]) < radix
    ensures r[0] == '0' ==> n == 0
  {
    if n < radix then [Digit(n)]
    else
      DivMod(n, radix);
      NatToRadix(n / radix, radix) + [Digit(n % radix)]
  }

  lemma DivMod(n: nat, radix: nat)
    requires 2 <= radix <= n
    ensures 0 < n / radix < n && 0 <= n % radix < radix
    ensures (n / radix) * radix + n % radix == n
  {
  }

  /** The number a digit string denotes in base `radix` (the inverse of `NatToRadix`). */
  function RadixValue(s: string, radix: nat): nat
  {
    if s == [] then 0 else RadixValue(s[..|s| - 1], radix) * radix + DigitValue(s[|s| - 1])
  }

  lemma {:induction false} RadixRoundTrip(n: nat, radix: nat)
    requires 2 <= radix <= 36
    ensures RadixValue(NatToRadix(n, radix), radix) == n
  {
    var r := NatToRadix(n, radix);
    if n >= radix {
      DivMod(n, radix);
      RadixRoundTrip(n / radix, radix);
      assert r[..|r| - 1] == NatToRadix(n / radix, radix);
    }
  }

  /** `o || d` for a string that may be missing: the empty string counts as missing. */
  function OrString(o: Option<string>, d: string): (r: string)
    ensures o.Some? && o.value != "" ==> r == o.value
    ensures r == d || (o.Some? && r == o.value)
    ensures r == "" ==> d == ""
  {
    if o.Some? && o.value != "" then o.value else d
  }

  /** `o || d` for a number that may be missing: zero counts as missing. */
  function OrInt(o: Option<int>, d: int): (r: int)
    ensures o.Some? && o.value != 0 ==> r == o.value
    ensures r == d || (o.Some? && r == o.value)
    ensures r == 0 ==> d == 0
  {
    if o.Some? && o.value != 0 then o.value else d
  }

  /** `count || content?.length || 0`: a stored count, else the content's length, else 0. */
  function CountOrLength(count: Option<int>, content: Option<string>): (r: int)
    ensures count.Some? && count.value != 0 ==> r == count.value
    ensures (count.None? || count.value == 0) ==> r == |OrString(content, "")|
    ensures r == 0 <==> (count.None? || count.value == 0) && (content.None? || content.value == "")
  {
    if count.Some? && count.value != 0 then count.value
    else if content.Some? then |content.value| else 0
  }
}
