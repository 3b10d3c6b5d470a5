/** Go string and number text: the byte order `sort.Strings` uses, decimal and hexadecimal rendering. */
module Text {

  datatype Option<+T> = None | Some(value: T)

  // ---------------------------------------------------------------- order

  /** Lexicographic "less than", Go's `<` on strings. */
  predicate Less(a: string, b: string) {
    if b == [] then false
    else if a == [] then true
    else if a[0] != b[0] then a[0] < b[0]
    else Less(a[1..], b[1..])
  }

  lemma {:induction false} LessTotal(a: string, b: string)
    ensures Less(a, b) || a == b || Less(b, a)
    ensures !(Less(a, b) && Less(b, a))
    ensures !Less(a, a)
  {
    if a != [] && b != [] && a[0] == b[0] {
      LessTotal(a[1..], b[1..]);
      assert a == [a[0]] + a[1..] && b == [b[0]] + b[1..];
    }
    if a != [] { LessTotal(a[1..], a[1..]); }
  }

  lemma {:induction false} LessTransitive(a: string, b: string, c: string)
    requires Less(a, b) && Less(b, c)
    ensures Less(a, c)
  {
    if a != [] && a[0] == b[0] && b[0] == c[0] {
      LessTransitive(a[1..], b[1..], c[1..]);
    }
  }

  /** Strictly ascending: sorted and free of duplicates. */
  ghost predicate Ascending(s: seq<string>) {
    forall i, j :: 0 <= i < j < |s| ==> Less(s[i], s[j])
  }

  ghost function Elements<T(!new)>(s: seq<T>): (r: set<T>)
    ensures forall x :: x in r <==> x in s
  {
    set x | x in s
  }

  ghost predicate IsLeast(m: string, names: set<string>) {
    m in names && forall x :: x in names && x != m ==> Less(m, x)
  }

  lemma {:induction false} LeastExists(names: set<string>) returns (m: string)
    requires names != {}
    ensures IsLeast(m, names)
  {
    m :| m in names;
    if names != {m} {
      var rest := names - {m};
      var l := LeastExists(rest);
      LessTotal(l, m);
      if Less(l, m) {
        m := l;
      } else {
        forall x | x in names && x != m ensures Less(m, x) {
          if x != l { LessTransitive(m, l, x); }
        }
      }
    }
  }

  /** The one strictly ascending enumeration of a set: what `sort.Strings` leaves of its keys. */
  ghost function SortedNames(names: set<string>): (s: seq<string>)
    ensures Ascending(s)
    ensures forall x :: x in s <==> x in names
    ensures |s| == |names|
  {
    if names == {} then []
    else
      assert exists m :: IsLeast(m, names) by { var m := LeastExists(names); }
      var m :| IsLeast(m, names);
      [m] + SortedNames(names - {m})
  }

  lemma HasElement<T>(s: seq<T>)
    requires s != []
    ensures exists x :: x in s
  {
    assert s[0] in s;
  }

  lemma {:induction false} AscendingUnique(a: seq<string>, b: seq<string>)
    requires Ascending(a) && Ascending(b)
    requires forall x :: x in a <==> x in b
    ensures a == b
  {
    if a == [] {
      if b != [] { HasElement(b); }
    } else {
      assert a[0] in b;
      assert b != [];
      assert b[0] in a;
      LessTotal(a[0], b[0]);
      forall x ensures x in a[1..] <==> x in b[1..] {
        if x in a[1..] { LessTotal(a[0], x); assert x in a; }
        if x in b[1..] { LessTotal(b[0], x); assert x in b; }
      }
      AscendingUnique(a[1..], b[1..]);
      assert a == [a[0]] + a[1..] && b == [b[0]] + b[1..];
    }
  }

  /** `sort.Strings` over a map's keys: repeatedly takes the least name left. */
  method Sort(names: set<string>) returns (s: seq<string>)
    ensures s == SortedNames(names)
  {
    var left := names;
    s := [];
    while left != {}
      invariant left <= names && Ascending(s)
      invariant forall x :: x in s <==> x in names - left
      invariant forall x, y :: x in s && y in left ==> Less(x, y)
      decreases |left|
    {
      ghost var l := LeastExists(left);
      var m :| m in left && forall x :: x in left && x != m ==> Less(m, x);
      s := s + [m];
      left := left - {m};
    }
    AscendingUnique(s, SortedNames(names));
  }

  // ---------------------------------------------------------------- decimal

  predicate IsDigit(c: char) { '0' <= c <= '9' }

  function Digit(n: nat): (c: char)
    requires n < 10
    ensures IsDigit(c) && c as int - '0' as int == n
  {
    ('0' as int + n) as char
  }

  /** strconv.Itoa on a natural number. */
  function Itoa(n: nat): (s: string)
    ensures s != [] && forall i :: 0 <= i < |s| ==> IsDigit(s[i])
  {
    if n < 10 then [Digit(n)] else Itoa(n / 10) + [Digit(n % 10)]
  }

  /** The value a run of digits spells. */
  function Value(s: string): (n: nat)
    requires forall i :: 0 <= i < |s| ==> IsDigit(s[i])
  {
    if s == [] then 0
    else
      assert IsDigit(s[|s| - 1]);
      10 * Value(s[..|s| - 1]) + (s[|s| - 1] as int - '0' as int)
  }

  lemma {:induction false} ValueOfItoa(n: nat)
    ensures Value(Itoa(n)) == n
  {
    if n < 10 {
      assert Value([]) == 0;
    } else {
      ValueOfItoa(n / 10);
      assert Itoa(n)[..|Itoa(n)| - 1] == Itoa(n / 10);
    }
  }

  lemma ItoaInjective(m: nat, n: nat)
    requires Itoa(m) == Itoa(n)
    ensures m == n
  {
    ValueOfItoa(m);
    ValueOfItoa(n);
  }

  /** How many digits a number below a power of ten takes. */
  lemma {:induction false} ItoaLength(n: nat)
    ensures n < 10 ==> |Itoa(n)| == 1
    ensures 10 <= n < 100 ==> |Itoa(n)| == 2
    ensures 100 <= n < 1000 ==> |Itoa(n)| == 3
  {
    if n >= 10 { ItoaLength(n / 10); }
  }

  const INT_LIMIT: nat := 0x8000_0000_0000_0000

  /** strconv.Atoi: an optional sign, then digits, inside the 64-bit range. */
  function Atoi(s: string): (r: Option<int>) {
    var negative := s != [] && s[0] == '-';
    var digits := if s != [] && (s[0] == '-' || s[0] == '+') then s[1..] else s;
    if digits == [] || exists i :: 0 <= i < |digits| && !IsDigit(digits[i]) then None
    else
      var v: int := Value(digits);
      if negative then (if v <= INT_LIMIT then Some(-v) else None)
      else if v < INT_LIMIT then Some(v) else None
  }

  lemma AtoiOfItoa(n: nat)
    requires n < INT_LIMIT
    ensures Atoi(Itoa(n)) == Some(n)
  {
    ValueOfItoa(n);
    assert IsDigit(Itoa(n)[0]);
  }

  /** strings.TrimSpace on the ASCII blanks. */
  function TrimSpace(s: string): string {
    if s == [] then s
    else if IsSpace(s[0]) then TrimSpace(s[1..])
    else if IsSpace(s[|s| - 1]) then TrimSpace(s[..|s| - 1])
    else s
  }

  predicate IsSpace(c: char) { c == ' ' || c == '\t' || c == '\n' || c == '\r' }

  // ---------------------------------------------------------------- hexadecimal

  function HexDigit(n: nat): (c: char)
    requires n < 16
  {
    if n < 10 then ('0' as int + n) as char else ('a' as int + n - 10) as char
  }

  /** `%0<width>x` for a number that fits the width. */
  function Hex(n: nat, width: nat): (s: string)
    ensures |s| == width
  {
    if width == 0 then [] else Hex(n / 16, width - 1) + [HexDigit(n % 16)]
  }

  function Pow16(width: nat): (p: nat)
    ensures p > 0
  {
    if width == 0 then 1 else 16 * Pow16(width - 1)
  }

  lemma {:induction false} HexInjective(m: nat, n: nat, width: nat)
    requires m < Pow16(width) && n < Pow16(width)
    requires Hex(m, width) == Hex(n, width)
    ensures m == n
  {
    if width > 0 {
      assert Hex(m, width)[..width - 1] == Hex(m / 16, width - 1);
      assert Hex(n, width)[..width - 1] == Hex(n / 16, width - 1);
      assert Hex(m, width)[width - 1] == HexDigit(m % 16);
      assert Hex(n, width)[width - 1] == HexDigit(n % 16);
      HexInjective(m / 16, n / 16, width - 1);
    }
  }

  // ---------------------------------------------------------------- cut

  datatype Cut = Cut(before: string, after: string, found: bool)

  /** strings.Cut at the first occurrence of one character. */
  function CutAt(s: string, c: char): (r: Cut)
    ensures !r.found ==> c !in s && r.before == s && r.after == []
    ensures r.found ==> c !in r.before && s == r.before + [c] + r.after
  {
    if s == [] then Cut([], [], false)
    else if s[0] == c then Cut([], s[1..], true)
    else
      var rest := CutAt(s[1..], c);
      Cut([s[0]] + rest.before, rest.after, rest.found)
  }

  /** Where a separator first stands decides both halves. */
  lemma {:induction false} CutOfJoin(a: string, b: string, c: char)
    requires c !in a
    ensures CutAt(a + [c] + b, c) == Cut(a, b, true)
  {
    if a != [] {
      CutOfJoin(a[1..], b, c);
      assert (a + [c] + b)[1..] == a[1..] + [c] + b;
    }
  }
}
