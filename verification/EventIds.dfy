/** Event IDs: 128-bit ULIDs. The sync endpoints compare and hash their 26-character
    Crockford base-32 text, so the text order must be the numeric order. */
module EventIds {
  import Strings

  type EventId = n: nat | n < 0x1_0000_0000_0000_0000_0000_0000_0000_0000

  /** The zero id.EventID: an absent ?after= parameter, and an absent nextCursor. */
  const ZERO: EventId := 0

  const CROCKFORD: string := "0123456789ABCDEFGHJKMNPQRSTVWXYZ"

  function Pow32(width: nat): nat {
    if width == 0 then 1 else 32 * Pow32(width - 1)
  }

  function Digits(n: nat, width: nat): (text: string)
    ensures |text| == width
  {
    if width == 0 then "" else Digits(n / 32, width - 1) + [CROCKFORD[n % 32]]
  }

  function Text(id: EventId): string {
    Digits(id, 26)
  }

  /** The nextCursor field: omitted (empty) when no event was read. */
  function CursorText(id: EventId): string {
    if id == ZERO then "" else Text(id)
  }

  lemma CrockfordAscends(i: nat, j: nat)
    requires i < j < 32
    ensures CROCKFORD[i] < CROCKFORD[j]
  {
    assert forall k | 0 <= k < 31 :: CROCKFORD[k] < CROCKFORD[k + 1];
    var k := i + 1;
    while k < j
      invariant i < k <= j && CROCKFORD[i] < CROCKFORD[k]
    {
      assert CROCKFORD[k] < CROCKFORD[k + 1];
      k := k + 1;
    }
  }

  lemma {:induction false} DigitsKeepOrder(m: nat, n: nat, width: nat)
    requires m < Pow32(width) && n < Pow32(width)
    ensures m < n <==> Strings.Less(Digits(m, width), Digits(n, width))
    decreases width
  {
    if width > 0 {
      DigitsKeepOrder(m / 32, n / 32, width - 1);
      DigitsKeepOrder(n / 32, m / 32, width - 1);
      var a, b := Digits(m / 32, width - 1), Digits(n / 32, width - 1);
      Strings.LessOnLastCharacter(a, CROCKFORD[m % 32], b, CROCKFORD[n % 32]);
      Strings.LessIsTotalOrder(a, b);
      if m % 32 < n % 32 {
        CrockfordAscends(m % 32, n % 32);
      } else if n % 32 < m % 32 {
        CrockfordAscends(n % 32, m % 32);
      }
    }
  }

  lemma {:induction false} PowerSplits(a: nat, b: nat)
    ensures Pow32(a + b) == Pow32(a) * Pow32(b)
  {
    if a > 0 {
      PowerSplits(a - 1, b);
      assert Pow32(a + b) == 32 * (Pow32(a - 1) * Pow32(b)) == 32 * Pow32(a - 1) * Pow32(b);
    }
  }

  lemma TwentySixDigitsSuffice()
    ensures Pow32(26) == 0x4_0000_0000_0000_0000_0000_0000_0000_0000
  {
    assert Pow32(2) == 1024;
    PowerSplits(2, 2);
    PowerSplits(4, 4);
    PowerSplits(8, 8);
    PowerSplits(16, 8);
    PowerSplits(24, 2);
  }

  /** Comparing IDs as text, as the full-scan reader does, is comparing them as numbers. */
  lemma TextKeepsOrder(a: EventId, b: EventId)
    ensures a < b <==> Strings.Less(Text(a), Text(b))
    ensures Text(a) == Text(b) <==> a == b
  {
    TwentySixDigitsSuffice();
    DigitsKeepOrder(a, b, 26);
    DigitsKeepOrder(b, a, 26);
    Strings.LessIsTotalOrder(Text(a), Text(b));
  }

  lemma {:induction false} DigitsAreCrockford(n: nat, width: nat)
    ensures forall c :: c in Digits(n, width) ==> c in CROCKFORD
  {
    if width > 0 {
      DigitsAreCrockford(n / 32, width - 1);
    }
  }
}
