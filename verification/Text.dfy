/** The string handling that the services share: Go's strings.TrimSpace, on text and on
    UTF-8 bytes, strconv.Atoi, decimal printing, cutting, and UTF-8. */
module Text {
  import opened Prelude

  /** unicode.IsSpace: the characters with the property White_Space. */
  predicate IsSpace(c: char) {
    var n := c as int;
    9 <= n <= 13 || n == 32 || n == 0x85 || n == 0xA0 || n == 0x1680 || 0x2000 <= n <= 0x200A
    || n == 0x2028 || n == 0x2029 || n == 0x202F || n == 0x205F || n == 0x3000
  }

  function TrimLeft(s: string): string {
    if s != "" && IsSpace(s[0]) then TrimLeft(s[1..]) else s
  }

  function TrimRight(s: string): string {
    if s != "" && IsSpace(s[|s| - 1]) then TrimRight(s[..|s| - 1]) else s
  }

  function TrimSpace(s: string): string { TrimRight(TrimLeft(s)) }

  predicate AllSpace(s: string) { forall i :: 0 <= i < |s| ==> IsSpace(s[i]) }

  /** Trimming leaves what is between the white space at both ends, and nothing else does. */
  lemma TrimmedIs(s: string, t: string)
    ensures t == TrimSpace(s) <==>
            && (exists a, b :: s == a + t + b && AllSpace(a) && AllSpace(b))
            && (t != "" ==> !IsSpace(t[0]) && !IsSpace(t[|t| - 1]))
  {
    hide IsSpace, TrimLeft, TrimRight, TrimSpace, AllSpace;
    var a, b := TrimmedEnds(s);
    if a, b :| s == a + t + b && AllSpace(a) && AllSpace(b) {
      if t != "" ==> !IsSpace(t[0]) && !IsSpace(t[|t| - 1]) { TrimmedUnique(a, t, b); }
    }
  }

  lemma TrimmedEnds(s: string) returns (a: string, b: string)
    ensures s == a + TrimSpace(s) + b && AllSpace(a) && AllSpace(b)
    ensures var t := TrimSpace(s); t != "" ==> !IsSpace(t[0]) && !IsSpace(t[|t| - 1])
  {
    hide IsSpace, TrimLeft, TrimRight, AllSpace;
    a := TrimLeftIs(s);
    b := TrimRightIs(TrimLeft(s));
    assert a + (TrimSpace(s) + b) == a + TrimSpace(s) + b;
  }

  lemma TrimmedUnique(a: string, t: string, b: string)
    requires AllSpace(a) && AllSpace(b) && (t != "" ==> !IsSpace(t[0]) && !IsSpace(t[|t| - 1]))
    ensures TrimSpace(a + t + b) == t
  {
    hide IsSpace;
    assert a + t + b == a + (t + b);
    TrimLeftDrops(a, t + b);
    if t == "" {
      assert t + b == b && b + "" == b;
      TrimLeftDrops(b, "");
    } else {
      TrimRightDrops(t, b);
    }
  }

  lemma {:induction false} TrimLeftIs(s: string) returns (a: string)
    ensures s == a + TrimLeft(s) && AllSpace(a) && (TrimLeft(s) != "" ==> !IsSpace(TrimLeft(s)[0]))
  {
    if s != "" && IsSpace(s[0]) {
      a := TrimLeftIs(s[1..]);
      a := [s[0]] + a;
    } else {
      a := "";
    }
  }

  lemma {:induction false} TrimRightIs(s: string) returns (b: string)
    ensures s == TrimRight(s) + b && AllSpace(b)
    ensures TrimRight(s) != "" ==> !IsSpace(TrimRight(s)[|TrimRight(s)| - 1])
    ensures s != "" && !IsSpace(s[0]) ==> TrimRight(s) != "" && TrimRight(s)[0] == s[0]
  {
    if s != "" && IsSpace(s[|s| - 1]) {
      b := TrimRightIs(s[..|s| - 1]);
      b := b + [s[|s| - 1]];
    } else {
      b := "";
    }
  }

  lemma {:induction false} TrimLeftDrops(a: string, rest: string)
    requires AllSpace(a)
    ensures TrimLeft(a + rest) == TrimLeft(rest)
  {
    if a == "" {
      assert a + rest == rest;
    } else {
      assert (a + rest)[1..] == a[1..] + rest;
      TrimLeftDrops(a[1..], rest);
    }
  }

  lemma {:induction false} TrimRightDrops(t: string, b: string)
    requires AllSpace(b)
    ensures TrimRight(t + b) == TrimRight(t)
  {
    if b == "" {
      assert t + b == t;
    } else {
      assert (t + b)[..|t + b| - 1] == t + b[..|b| - 1];
      TrimRightDrops(t, b[..|b| - 1]);
    }
  }

  predicate IsDigit(c: char) { '0' <= c <= '9' }

  predicate AllDigits(s: string) { forall i :: 0 <= i < |s| ==> IsDigit(s[i]) }

  function DigitsValue(s: string): nat
    requires AllDigits(s)
  {
    if s == "" then 0 else 10 * DigitsValue(s[..|s| - 1]) + (s[|s| - 1] as int - '0' as int)
  }

  /** strconv.Atoi on at most sixteen characters, where it cannot overflow. */
  function Atoi(s: string): Option<int> {
    var digits := if s != "" && (s[0] == '+' || s[0] == '-') then s[1..] else s;
    if digits == "" || !AllDigits(digits) then None
    else
      var value: int := DigitsValue(digits);
      Some(if s[0] == '-' then -value else value)
  }

  predicate NumberIs(digits: string, n: int) { digits != "" && AllDigits(digits) && DigitsValue(digits) == n }

  /** What reads as a number: digits, with or without a sign. */
  lemma AtoiMeans(s: string, n: int)
    ensures Atoi(s) == Some(n) <==>
            || NumberIs(s, n)
            || (s != "" && s[0] == '+' && NumberIs(s[1..], n))
            || (s != "" && s[0] == '-' && NumberIs(s[1..], -n))
  {
    if s != "" && AllDigits(s) { assert IsDigit(s[0]); }
  }

  /** fmt's %d. */
  function Decimal(n: int): (s: string)
    ensures s != ""
  {
    if n < 0 then "-" + Digits(-n) else Digits(n)
  }

  function Digits(n: nat): (s: string)
    ensures s != "" && AllDigits(s)
  {
    var last := [(n % 10 + '0' as int) as char];
    if n < 10 then last else Digits(n / 10) + last
  }

  lemma {:induction false} DigitsHaveValue(n: nat)
    ensures DigitsValue(Digits(n)) == n
  {
    var s := Digits(n);
    if n >= 10 {
      DigitsHaveValue(n / 10);
      assert s[..|s| - 1] == Digits(n / 10);
    } else {
      assert s[..|s| - 1] == "";
    }
  }

  /** What %d prints, Atoi reads. */
  lemma DecimalReadsBack(n: int)
    ensures Atoi(Decimal(n)) == Some(n)
  {
    var m := if n < 0 then -n else n;
    DigitsHaveValue(m);
    assert IsDigit(Digits(m)[0]);
    assert n < 0 ==> Decimal(n)[1..] == Digits(m);
  }

  /** Cutting at the first separator recovers what was joined. */
  lemma {:induction false} CutInjective(separator: char, a: string, k: string, b: string, l: string)
    requires separator !in a && separator !in b && a + [separator] + k == b + [separator] + l
    ensures a == b && k == l
  {
    var s, t := a + [separator] + k, b + [separator] + l;
    if a == "" {
      assert s[0] == separator;
      assert b == "";
      assert k == s[1..] == l;
    } else {
      assert s[0] == a[0];
      assert a[0] in a && t[0] == a[0];
      assert a[1..] + [separator] + k == s[1..];
      assert b[1..] + [separator] + l == t[1..];
      CutInjective(separator, a[1..], k, b[1..], l);
    }
  }

  lemma TrimKeeps(s: string)
    requires s == "" || (!IsSpace(s[0]) && !IsSpace(s[|s| - 1]))
    ensures TrimSpace(s) == s
  {
  }

  lemma DecimalChars(n: int, c: char)
    requires c in Decimal(n)
    ensures IsDigit(c) || c == '-'
  {
  }

  function Pow10(k: nat): nat { if k == 0 then 1 else 10 * Pow10(k - 1) }

  lemma {:induction false} DigitsLength(n: nat, k: nat)
    requires 1 <= k && n < Pow10(k)
    ensures |Digits(n)| <= k
  {
    if n >= 10 {
      assert k > 1;
      DigitsLength(n / 10, k - 1);
    }
  }

  lemma DecimalLength(n: int64)
    ensures 1 <= |Decimal(n as int)| <= 20
  {
    var m := if n < 0 then -(n as int) else n as int;
    assert Pow10(4) == 10_000 && Pow10(8) == 100_000_000;
    assert Pow10(12) == 1_000_000_000_000 && Pow10(16) == 10_000_000_000_000_000;
    assert Pow10(19) == 10_000_000_000_000_000_000;
    DigitsLength(m, 19);
  }

  // ---------------------------------------------------------------- UTF-8

  /** One character in UTF-8. */
  function EncodeChar(c: char): Bytes {
    var n := c as int;
    if n < 0x80 then [n as byte]
    else if n < 0x800 then [(0xC0 + n / 64) as byte, (0x80 + n % 64) as byte]
    else if n < 0x1_0000 then [(0xE0 + n / 4096) as byte, (0x80 + n / 64 % 64) as byte, (0x80 + n % 64) as byte]
    else [(0xF0 + n / 262144) as byte, (0x80 + n / 4096 % 64) as byte, (0x80 + n / 64 % 64) as byte,
          (0x80 + n % 64) as byte]
  }

  function Encode(s: string): Bytes {
    if s == "" then [] else EncodeChar(s[0]) + Encode(s[1..])
  }

  predicate Continues(b: byte) { 0x80 <= b <= 0xBF }

  /** utf8.Valid: section 4 of RFC 3629. */
  predicate ValidUtf8(s: Bytes) {
    s == []
    || (s[0] <= 0x7F && ValidUtf8(s[1..]))
    || (|s| >= 2 && 0xC2 <= s[0] <= 0xDF && Continues(s[1]) && ValidUtf8(s[2..]))
    || (|s| >= 3 && 0xE0 <= s[0] <= 0xEF && Continues(s[1]) && Continues(s[2])
        && (s[0] == 0xE0 ==> 0xA0 <= s[1]) && (s[0] == 0xED ==> s[1] <= 0x9F) && ValidUtf8(s[3..]))
    || (|s| >= 4 && 0xF0 <= s[0] <= 0xF4 && Continues(s[1]) && Continues(s[2]) && Continues(s[3])
        && (s[0] == 0xF0 ==> 0x90 <= s[1]) && (s[0] == 0xF4 ==> s[1] <= 0x8F) && ValidUtf8(s[4..]))
  }

  lemma {:induction false} EncodingIsValid(s: string)
    ensures ValidUtf8(Encode(s))
    ensures Encode(s) == [] <==> s == ""
  {
    if s == "" {
      assert ValidUtf8([]);
    } else {
      hide ValidUtf8;
      EncodingIsValid(s[1..]);
      CharIsValid(s[0], Encode(s[1..]));
    }
  }

  /** Valid UTF-8 is the encoding of some text, and nothing else is. */
  lemma {:induction false} ValidMeansEncoded(s: Bytes)
    ensures ValidUtf8(s) <==> exists t :: Encode(t) == s
    decreases |s|
  {
    if t :| Encode(t) == s { EncodingIsValid(t); }
    if ValidUtf8(s) { var t := Decoded(s); }
  }

  lemma {:induction false} Decoded(s: Bytes) returns (t: string)
    requires ValidUtf8(s)
    ensures Encode(t) == s
    decreases |s|
  {
    hide ValidUtf8, EncodeChar;
    t := "";
    if s != [] {
      var c, k := FirstChar(s);
      var rest := Decoded(s[k..]);
      t := [c] + rest;
      assert t[1..] == rest;
    }
  }

  /** The character that valid UTF-8 begins with, and its width. */
  lemma FirstChar(s: Bytes) returns (c: char, k: nat)
    requires s != [] && ValidUtf8(s)
    ensures 1 <= k <= |s| && s == EncodeChar(c) + s[k..] && ValidUtf8(s[k..])
  {
    if s[0] <= 0x7F {
      c, k := s[0] as char, 1;
    } else if s[0] <= 0xDF {
      TwoDigits(64 * (s[0] as int - 0xC0) + (s[1] as int - 0x80), s[0] as int - 0xC0, s[1] as int - 0x80);
      c, k := (64 * (s[0] as int - 0xC0) + (s[1] as int - 0x80)) as char, 2;
    } else if s[0] <= 0xEF {
      k := 3;
      c := LongChar(s[..3]);
    } else {
      k := 4;
      c := LongestChar(s[..4]);
    }
  }

  lemma LongChar(s: Bytes) returns (c: char)
    requires |s| == 3 && 0xE0 <= s[0] <= 0xEF && Continues(s[1]) && Continues(s[2])
    requires (s[0] == 0xE0 ==> 0xA0 <= s[1]) && (s[0] == 0xED ==> s[1] <= 0x9F)
    ensures EncodeChar(c) == s
  {
    var x, y, z := s[0] as int - 0xE0, s[1] as int - 0x80, s[2] as int - 0x80;
    var n := 4096 * x + 64 * y + z;
    ThreeDigits(n, x, y, z);
    c := n as char;
  }

  lemma LongestChar(s: Bytes) returns (c: char)
    requires |s| == 4 && 0xF0 <= s[0] <= 0xF4 && Continues(s[1]) && Continues(s[2]) && Continues(s[3])
    requires (s[0] == 0xF0 ==> 0x90 <= s[1]) && (s[0] == 0xF4 ==> s[1] <= 0x8F)
    ensures EncodeChar(c) == s
  {
    var w, x, y, z := s[0] as int - 0xF0, s[1] as int - 0x80, s[2] as int - 0x80, s[3] as int - 0x80;
    var n := 262144 * w + 4096 * x + 64 * y + z;
    FourDigits(n, w, x, y, z);
    c := n as char;
  }

  /** The lengths and the ranges of the bytes of one character. */
  lemma CharBytes(c: char)
    ensures var e := EncodeChar(c);
            || (|e| == 1 && e[0] <= 0x7F)
            || (|e| == 2 && 0xC2 <= e[0] <= 0xDF && Continues(e[1]))
            || (|e| == 3 && 0xE0 <= e[0] <= 0xEF && Continues(e[1]) && Continues(e[2])
                && (e[0] == 0xE0 ==> 0xA0 <= e[1]) && (e[0] == 0xED ==> e[1] <= 0x9F))
            || (|e| == 4 && 0xF0 <= e[0] <= 0xF4 && Continues(e[1]) && Continues(e[2]) && Continues(e[3])
                && (e[0] == 0xF0 ==> 0x90 <= e[1]) && (e[0] == 0xF4 ==> e[1] <= 0x8F))
  {
  }

  lemma CharIsValid(c: char, rest: Bytes)
    requires ValidUtf8(rest)
    ensures ValidUtf8(EncodeChar(c) + rest)
  {
    hide EncodeChar;
    CharBytes(c);
    var head := EncodeChar(c);
    var s := head + rest;
    assert s[|head|..] == rest;
    assert s[..|head|] == head;
  }

  lemma {:induction false} EncodeSnoc(s: string, c: char)
    ensures Encode(s + [c]) == Encode(s) + EncodeChar(c)
  {
    hide EncodeChar;
    if s == "" {
      assert Encode([c]) == EncodeChar(c) + Encode([c][1..]);
    } else {
      EncodeSnoc(s[1..], c);
      assert (s + [c])[1..] == s[1..] + [c];
      assert Encode(s + [c]) == EncodeChar(s[0]) + (Encode(s[1..]) + EncodeChar(c));
    }
  }

  lemma {:induction false} AsciiEncodesAsIs(s: string)
    requires forall i :: 0 <= i < |s| ==> s[i] as int < 0x80
    ensures |Encode(s)| == |s| && forall i :: 0 <= i < |s| ==> Encode(s)[i] as int == s[i] as int
  {
    if s != "" {
      AsciiEncodesAsIs(s[1..]);
    }
  }

  // ---------------------------------------------------------------- trimming bytes

  /** The encodings of white space in UTF-8. */
  predicate SpaceBytes(s: Bytes) {
    || (|s| == 1 && (9 <= s[0] <= 13 || s[0] == 32))
    || (|s| == 2 && s[0] == 0xC2 && (s[1] == 0x85 || s[1] == 0xA0))
    || (|s| == 3 && s[0] == 0xE1 && s[1] == 0x9A && s[2] == 0x80)
    || (|s| == 3 && s[0] == 0xE2 && s[1] == 0x80
        && (0x80 <= s[2] <= 0x8A || s[2] == 0xA8 || s[2] == 0xA9 || s[2] == 0xAF))
    || (|s| == 3 && s[0] == 0xE2 && s[1] == 0x81 && s[2] == 0x9F)
    || (|s| == 3 && s[0] == 0xE3 && s[1] == 0x80 && s[2] == 0x80)
  }

  /** The width of the white space that the bytes begin with, or 0. */
  function LeadingSpace(s: Bytes): (w: nat)
    ensures w <= |s|
  {
    if |s| >= 1 && SpaceBytes(s[..1]) then 1
    else if |s| >= 2 && SpaceBytes(s[..2]) then 2
    else if |s| >= 3 && SpaceBytes(s[..3]) then 3
    else 0
  }

  /** The width of the white space that the bytes end with, or 0. */
  function TrailingSpace(s: Bytes): (w: nat)
    ensures w <= |s|
  {
    if |s| >= 1 && SpaceBytes(s[|s| - 1..]) then 1
    else if |s| >= 2 && SpaceBytes(s[|s| - 2..]) then 2
    else if |s| >= 3 && SpaceBytes(s[|s| - 3..]) then 3
    else 0
  }

  function TrimBytesLeft(s: Bytes): Bytes
    decreases |s|
  {
    if LeadingSpace(s) > 0 then TrimBytesLeft(s[LeadingSpace(s)..]) else s
  }

  function TrimBytesRight(s: Bytes): Bytes
    decreases |s|
  {
    if TrailingSpace(s) > 0 then TrimBytesRight(s[..|s| - TrailingSpace(s)]) else s
  }

  /** strings.TrimSpace on bytes, valid UTF-8 or not. */
  function TrimBytes(s: Bytes): Bytes { TrimBytesRight(TrimBytesLeft(s)) }

  /** The two and the three digits to base 64 that a longer encoding holds. */
  lemma TwoDigits(n: nat, x: nat, y: nat)
    requires x < 32 && y < 64
    ensures n / 64 == x && n % 64 == y <==> n == 64 * x + y
  {
  }

  lemma ThreeDigits(n: nat, x: nat, y: nat, z: nat)
    requires y < 64 && z < 64
    ensures n / 4096 == x && n / 64 % 64 == y && n % 64 == z <==> n == 4096 * x + 64 * y + z
  {
    assert n / 4096 == n / 64 / 64;
  }

  lemma FourDigits(n: nat, w: nat, x: nat, y: nat, z: nat)
    requires x < 64 && y < 64 && z < 64 && n == 262144 * w + 4096 * x + 64 * y + z
    ensures n / 262144 == w && n / 4096 % 64 == x && n / 64 % 64 == y && n % 64 == z
  {
    assert n / 4096 == 64 * w + x;
    assert n / 64 == 4096 * w + 64 * x + y;
  }

  lemma CharSpace(c: char)
    ensures SpaceBytes(EncodeChar(c)) <==> IsSpace(c)
  {
    var n := c as int;
    if 0x80 <= n < 0x800 {
      TwoDigits(n, n / 64, n % 64);
    } else if 0x800 <= n < 0x1_0000 {
      ThreeDigits(n, n / 4096, n / 64 % 64, n % 64);
    }
  }

  lemma LeadingOfChar(c: char, rest: Bytes)
    ensures LeadingSpace(EncodeChar(c) + rest) == if IsSpace(c) then |EncodeChar(c)| else 0
  {
    hide EncodeChar, IsSpace;
    CharBytes(c);
    var e := EncodeChar(c);
    var s := e + rest;
    CharSpace(c);
    assert s[..|e|] == e;
  }

  /** Text cannot end with white space that begins inside or before its last character. */
  lemma NoOtherSpace(c: char, t: Bytes)
    requires var e := EncodeChar(c); |t| != |e| && if |t| < |e| then t == e[|e| - |t|..] else e == t[|t| - |e|..]
    ensures !SpaceBytes(t)
  {
    hide EncodeChar;
    CharBytes(c);
    var e := EncodeChar(c);
    if |t| == 3 && |e| == 2 { assert t[1] == e[0]; }
    if |t| == 3 && |e| == 1 { assert t[2] == e[0]; }
    if |t| == 2 && |e| == 1 { assert t[1] == e[0]; }
    if 0 < |t| < |e| { assert t[0] == e[|e| - |t|]; }
  }

  lemma OnlyThatSpace(c: char, before: Bytes, k: nat)
    requires k <= |before + EncodeChar(c)| && k != |EncodeChar(c)|
    ensures var s := before + EncodeChar(c); !SpaceBytes(s[|s| - k..])
  {
    hide EncodeChar, SpaceBytes;
    var e := EncodeChar(c);
    var s := before + e;
    if k < |e| { assert s[|s| - k..] == e[|e| - k..]; } else { assert s[|s| - k..][k - |e|..] == e; }
    NoOtherSpace(c, s[|s| - k..]);
  }

  lemma TrailingOfChar(c: char, before: Bytes)
    ensures TrailingSpace(before + EncodeChar(c)) == if IsSpace(c) then |EncodeChar(c)| else 0
  {
    hide EncodeChar, IsSpace, SpaceBytes;
    CharSpace(c);
    NoLongSpace(EncodeChar(c));
    var e := EncodeChar(c);
    var s := before + e;
    if |s| >= 1 && |e| != 1 { OnlyThatSpace(c, before, 1); }
    if |s| >= 2 && |e| != 2 { OnlyThatSpace(c, before, 2); }
    if |s| >= 3 && |e| != 3 { OnlyThatSpace(c, before, 3); }
    assert s[|s| - |e|..] == e;
  }

  lemma NoLongSpace(s: Bytes)
    ensures SpaceBytes(s) ==> 1 <= |s| <= 3
  {
  }

  lemma {:induction false} TrimLeftAgrees(s: string)
    ensures TrimBytesLeft(Encode(s)) == Encode(TrimLeft(s))
  {
    if s != "" {
      hide EncodeChar, LeadingSpace, IsSpace;
      LeadingOfChar(s[0], Encode(s[1..]));
      CharNotEmpty(s[0]);
      TrimLeftAgrees(s[1..]);
      assert (EncodeChar(s[0]) + Encode(s[1..]))[|EncodeChar(s[0])|..] == Encode(s[1..]);
    }
  }

  lemma CharNotEmpty(c: char)
    ensures EncodeChar(c) != []
  {
  }

  lemma {:induction false} TrimRightAgrees(s: string)
    ensures TrimBytesRight(Encode(s)) == Encode(TrimRight(s))
  {
    if s != "" {
      hide EncodeChar, TrailingSpace, IsSpace;
      var (before, c) := (s[..|s| - 1], s[|s| - 1]);
      assert before + [c] == s;
      EncodeSnoc(before, c);
      TrailingOfChar(c, Encode(before));
      CharNotEmpty(c);
      TrimRightAgrees(before);
      assert (Encode(before) + EncodeChar(c))[..|Encode(before)|] == Encode(before);
    }
  }

  /** On valid UTF-8 the bytes are trimmed as the text they encode. */
  lemma TrimBytesAgrees(s: string)
    ensures TrimBytes(Encode(s)) == Encode(TrimSpace(s))
  {
    TrimLeftAgrees(s);
    TrimRightAgrees(TrimLeft(s));
  }

  /** Only white space trims to nothing. */
  lemma {:induction false} BlankIsAllSpace(s: string)
    ensures TrimSpace(s) == "" <==> AllSpace(s)
  {
    hide IsSpace;
    if s != "" && IsSpace(s[0]) {
      BlankIsAllSpace(s[1..]);
      assert forall i :: 1 <= i < |s| ==> s[i] == s[1..][i - 1];
    } else if s != "" {
      TrimRightKeepsFirst(s);
    }
  }

  lemma {:induction false} TrimRightKeepsFirst(s: string)
    requires s != "" && !IsSpace(s[0])
    ensures TrimRight(s) != ""
  {
    if |s| > 1 && IsSpace(s[|s| - 1]) {
      TrimRightKeepsFirst(s[..|s| - 1]);
    }
  }
}
