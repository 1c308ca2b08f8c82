/** One-time codes: the dynamic truncation of a 20-byte MAC (section 5.3 of RFC 4226) and the window
    of three time steps (section 5.2 of RFC 6238). The MAC of a secret is a parameter, from counters to bytes. */
module IamTotp {
  import opened Prelude
  import opened Text

  const STEP: int := 30
  const UINT64: int := 0x1_0000_0000_0000_0000

  function Zeros(n: nat): string { seq(n, _ => '0') }

  /** fmt's %06d for a value below a million. */
  function SixDigits(n: nat): (s: string)
    requires n < 1_000_000
    ensures |s| == 6
  {
    assert Pow10(6) == 1_000_000;
    DigitsLength(n, 6);
    Zeros(6 - |Digits(n)|) + Digits(n)
  }

  /** The last byte's low four bits choose four bytes, whose first bit is dropped. */
  function Truncate(hash: Bytes): (n: nat)
    requires |hash| == 20
    ensures n < 0x8000_0000
  {
    var offset := hash[|hash| - 1] as int % 16;
    (hash[offset] as int * 0x100_0000 + hash[offset + 1] as int * 0x1_0000 + hash[offset + 2] as int * 0x100
     + hash[offset + 3] as int) % 0x8000_0000
  }

  function Hotp(hash: Bytes): (code: string)
    requires |hash| == 20
    ensures |code| == 6
  { SixDigits(Truncate(hash) % 1_000_000) }

  lemma {:induction false} LeadingZeros(k: nat, s: string)
    requires AllDigits(s)
    ensures AllDigits(Zeros(k) + s) && DigitsValue(Zeros(k) + s) == DigitsValue(s)
    decreases |s|
  {
    var t := Zeros(k) + s;
    if s != "" {
      LeadingZeros(k, s[..|s| - 1]);
      assert t[..|t| - 1] == Zeros(k) + s[..|s| - 1] && t[|t| - 1] == s[|s| - 1];
    } else {
      assert t == Zeros(k);
      ZerosAreZero(k);
    }
  }

  lemma {:induction false} ZerosAreZero(k: nat)
    ensures AllDigits(Zeros(k)) && DigitsValue(Zeros(k)) == 0
  {
    if k > 0 {
      ZerosAreZero(k - 1);
      assert Zeros(k)[..k - 1] == Zeros(k - 1);
    }
  }

  /** The bytes from the one that the last byte's low four bits choose, the first of them without its high bit, are the
      big-endian bytes of the truncated value. */
  lemma TruncateReads(hash: Bytes)
    requires |hash| == 20
    ensures var n, o := Truncate(hash), LowBits(hash[19]);
            && n / 0x100_0000 == hash[o] as int % 128 && n / 0x1_0000 % 256 == hash[o + 1] as int
            && n / 0x100 % 256 == hash[o + 2] as int && n % 256 == hash[o + 3] as int
    ensures Truncate(hash) == BigEndian(hash, LowBits(hash[19]))
  {
    var n, o := Truncate(hash), LowBits(hash[19]);
    var b0, b1, b2, b3 := hash[o] as int, hash[o + 1] as int, hash[o + 2] as int, hash[o + 3] as int;
    assert n == b0 % 128 * 0x100_0000 + b1 * 0x1_0000 + b2 * 0x100 + b3 by { TopBitDropped(b0, b1, b2, b3); }
    BytesOf(b0 % 128, b1, b2, b3);
  }

  lemma TopBitDropped(b0: nat, b1: nat, b2: nat, b3: nat)
    requires b0 < 256 && b1 < 256 && b2 < 256 && b3 < 256
    ensures (b0 * 0x100_0000 + b1 * 0x1_0000 + b2 * 0x100 + b3) % 0x8000_0000
         == b0 % 128 * 0x100_0000 + b1 * 0x1_0000 + b2 * 0x100 + b3
  {
    assert b0 == b0 / 128 * 128 + b0 % 128;
  }

  lemma BytesOf(b0: nat, b1: nat, b2: nat, b3: nat)
    requires b1 < 256 && b2 < 256 && b3 < 256
    ensures var n := b0 * 0x100_0000 + b1 * 0x1_0000 + b2 * 0x100 + b3;
            n / 0x100_0000 == b0 && n / 0x1_0000 % 256 == b1 && n / 0x100 % 256 == b2 && n % 256 == b3
  {
    var n := b0 * 0x100_0000 + b1 * 0x1_0000 + b2 * 0x100 + b3;
    assert n / 0x1_0000 == b0 * 256 + b1;
    assert n / 0x100 == b0 * 0x1_0000 + b1 * 256 + b2;
  }

  /** The low four bits of a byte. */
  function LowBits(b: byte): (n: nat)
    ensures n < 16 && exists high: nat :: high < 16 && b as int == 16 * high + n
  {
    var high := b as int / 16;
    assert high < 16 && b as int == 16 * high + (b as int - 16 * high);
    b as int - 16 * high
  }

  /** Four bytes as a number, the high bit of the first one left out. */
  function BigEndian(hash: Bytes, o: nat): nat
    requires o + 3 < |hash|
  { ((hash[o] as int % 128 * 256 + hash[o + 1] as int) * 256 + hash[o + 2] as int) * 256 + hash[o + 3] as int }

  /** Section 5.3 of RFC 4226: the text is six decimal digits that say the chosen four bytes modulo a million. */
  ghost predicate Says(code: string, hash: Bytes)
    requires |hash| == 20
  {
    |code| == 6 && AllDigits(code) && DigitsValue(code) == BigEndian(hash, LowBits(hash[19])) % 1_000_000
  }

  /** Every MAC has one code, and it is the six digits that say the chosen bytes: nothing else is lost. */
  lemma CodeIsSixDigits(hash: Bytes, code: string)
    requires |hash| == 20
    ensures code == Hotp(hash) <==> Says(code, hash)
  {
    hide Truncate, BigEndian, LowBits;
    var n := Truncate(hash) % 1_000_000;
    TruncateReads(hash);
    assert Pow10(6) == 1_000_000;
    DigitsLength(n, 6);
    LeadingZeros(6 - |Digits(n)|, Digits(n));
    DigitsHaveValue(n);
    if Says(code, hash) { DigitsUnique(code, Hotp(hash)); }
  }

  /** As many digits with the same value are the same digits. */
  lemma {:induction false} DigitsUnique(s: string, t: string)
    requires |s| == |t| && AllDigits(s) && AllDigits(t) && DigitsValue(s) == DigitsValue(t)
    ensures s == t
    decreases |s|
  {
    if s != "" {
      var n := |s| - 1;
      assert s[n] as int - '0' as int == DigitsValue(s) % 10 && t[n] as int - '0' as int == DigitsValue(t) % 10;
      DigitsUnique(s[..n], t[..n]);
      assert s == s[..n] + [s[n]] && t == t[..n] + [t[n]];
    }
  }

  /** The example of section 5.4 of RFC 4226. */
  lemma RfcExample()
    ensures Hotp([0x1f, 0x86, 0x98, 0x69, 0x0e, 0x02, 0xca, 0x16, 0x61, 0x85, 0x50, 0xef, 0x7f, 0x19, 0xda, 0x8e, 0x94,
                  0x5b, 0x55, 0x5a]) == "872921"
  {
    var hash: Bytes := [0x1f, 0x86, 0x98, 0x69, 0x0e, 0x02, 0xca, 0x16, 0x61, 0x85, 0x50, 0xef, 0x7f, 0x19, 0xda, 0x8e,
                        0x94, 0x5b, 0x55, 0x5a];
    assert LowBits(hash[19]) == 10;
    assert BigEndian(hash, 10) == 0x50ef7f19;
    ExampleDigits();
    CodeIsSixDigits(hash, "872921");
  }

  lemma ExampleDigits()
    ensures AllDigits("872921") && DigitsValue("872921") == 872921
  {
    assert "872921"[..5] == "87292" && "87292"[..4] == "8729" && "8729"[..3] == "872";
    assert "872"[..2] == "87" && "87"[..1] == "8" && "8"[..0] == "";
    assert DigitsValue("872") == 872;
  }

  /** Go's unsigned addition of -1, 0 or 1. */
  function Counter(step: int, offset: int): int { (step + offset) % UINT64 }

  /** now.Unix() / 30 as Go computes it: rounded towards zero. */
  function StepAt(now: int): int { if now < 0 then -(-now / STEP) else now / STEP }

  lemma NoCode(mac: int -> Bytes, code: string, now: int)
    requires |code| != 6 && forall c :: |mac(c)| == 20
    ensures forall k :: -1 <= k <= 1 ==> !Says(code, mac(Counter(StepAt(now), k)))
  {
  }

  method ValidateTotp(mac: int -> Bytes, code: string, now: int) returns (ok: bool)
    requires forall c :: |mac(c)| == 20
    ensures ok <==> exists k :: -1 <= k <= 1 && Says(code, mac(Counter(StepAt(now), k)))
  {
    hide Says, Hotp, StepAt, BigEndian, LowBits, Truncate;
    if |code| != 6 {
      NoCode(mac, code, now);
      return false;
    }
    var step := StepAt(now) % UINT64;
    var k := -1;
    while k <= 1
      invariant -1 <= k <= 2
      invariant forall j :: -1 <= j < k ==> !Says(code, mac(Counter(StepAt(now), j)))
    {
      assert (step + k) % UINT64 == Counter(StepAt(now), k);
      CodeIsSixDigits(mac(Counter(StepAt(now), k)), code);
      if Hotp(mac((step + k) % UINT64)) == code {
        return true;
      }
      k := k + 1;
    }
    ok := false;
  }

  ghost predicate Accepted(mac: int -> Bytes, code: string, now: int)
    requires forall c :: |mac(c)| == 20
  {
    exists k :: -1 <= k <= 1 && Says(code, mac(Counter(StepAt(now), k)))
  }

  /** A code generated at time s is accepted at every time within 30 seconds of s. */
  lemma AcceptedNearby(mac: int -> Bytes, s: int, t: int)
    requires forall c :: |mac(c)| == 20
    requires 0 <= s < UINT64 && 0 <= t < UINT64 && -30 <= t - s <= 30
    ensures Accepted(mac, Hotp(mac(StepAt(s))), t)
  {
    var k := StepAt(s) - StepAt(t);
    assert -1 <= k <= 1;
    assert Counter(StepAt(t), k) == StepAt(s);
    CodeIsSixDigits(mac(Counter(StepAt(t), k)), Hotp(mac(StepAt(s))));
  }

  /** From time 30 on, an accepted code is that of the previous, the present or the next step, with no wrap-around. */
  lemma AcceptedMeans(mac: int -> Bytes, code: string, t: int)
    requires forall c :: |mac(c)| == 20
    requires 30 <= t < UINT64
    ensures Accepted(mac, code, t) <==>
            Says(code, mac(t / 30 - 1)) || Says(code, mac(t / 30)) || Says(code, mac(t / 30 + 1))
  {
    hide Says, Counter, StepAt;
    CountersAt(t);
    forall k | -1 <= k <= 1 ensures Counter(StepAt(t), k) == t / STEP + k {
      assert k == -1 || k == 0 || k == 1;
    }
    if Accepted(mac, code, t) {
      var k :| -1 <= k <= 1 && Says(code, mac(Counter(StepAt(t), k)));
      assert k == -1 || k == 0 || k == 1;
    }
  }

  lemma CountersAt(t: int)
    requires STEP <= t < UINT64
    ensures Counter(StepAt(t), -1) == t / STEP - 1 && Counter(StepAt(t), 0) == t / STEP
    ensures Counter(StepAt(t), 1) == t / STEP + 1
  {
  }

  /** In the first step the window reaches back to the last counter of all. */
  lemma FirstStepWraps(t: int)
    requires 0 <= t < 30
    ensures Counter(StepAt(t), -1) == UINT64 - 1
  {
  }
}
