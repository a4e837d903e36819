/** `java.util.UUID`: the five hexadecimal groups, `UUID.fromString` and `UUID.toString`. */
module Uuids {
  import opened Wrappers
  import opened Numerals
  import opened JavaText

  /** A 128-bit UUID kept as its five groups of 32, 16, 16, 16 and 48 bits. */
  datatype UuidBits = UuidBits(timeLow: nat, timeMid: nat, timeHigh: nat, clockSeq: nat, node: nat) {
    predicate InRange() {
      timeLow < 0x1_0000_0000 && timeMid < 0x1_0000 && timeHigh < 0x1_0000 && clockSeq < 0x1_0000
      && node < 0x1_0000_0000_0000
    }
  }

  type Uuid = u: UuidBits | u.InRange() witness UuidBits(0, 0, 0, 0, 0)

  const MaxLong: nat := 0x7fff_ffff_ffff_ffff

  /** `Long.parseLong(g, 16)` for a group, which never contains '-': an optional '+', then at least one
      hexadecimal digit, the value below 2^63; `None` stands for the `NumberFormatException`. */
  function ParseHexGroup(g: string): (r: Option<nat>)
    ensures r.Some? ==> r.value <= MaxLong
  {
    var digits := if g != [] && g[0] == '+' then g[1..] else g;
    if digits == [] || !AllDigits(digits, 16) then None
    else if ValueOf(digits, 16) > MaxLong then None
    else Some(ValueOf(digits, 16))
  }

  /** `UUID.fromString(s)`: at most 36 characters and exactly four dashes; each group is parsed as a long and
      masked to its width. `None` stands for the `IllegalArgumentException` (including a `NumberFormatException`). */
  function ParseUuid(s: string): (r: Option<Uuid>)
    ensures r.Some? ==> |s| <= 36 && |Fields(s, '-')| == 5
  {
    if |s| > 36 then None
    else
      var gs := Fields(s, '-');
      if |gs| != 5 then None else FromGroups(gs)
  }

  function FromGroups(gs: seq<string>): Option<Uuid>
    requires |gs| == 5
  {
    var a, b, c := ParseHexGroup(gs[0]), ParseHexGroup(gs[1]), ParseHexGroup(gs[2]);
    var d, e := ParseHexGroup(gs[3]), ParseHexGroup(gs[4]);
    if a.None? || b.None? || c.None? || d.None? || e.None? then None
    else Some(UuidBits(a.value % 0x1_0000_0000, b.value % 0x1_0000, c.value % 0x1_0000, d.value % 0x1_0000,
                       e.value % 0x1_0000_0000_0000))
  }

  /** The five groups of `u` in lower-case hexadecimal, 8, 4, 4, 4 and 12 digits wide. */
  function Groups(u: Uuid): (gs: seq<string>)
    ensures |gs| == 5 && forall i :: 0 <= i < 5 ==> '-' !in gs[i]
  {
    var gs := [FixedWidth(u.timeLow, 8, 16), FixedWidth(u.timeMid, 4, 16), FixedWidth(u.timeHigh, 4, 16),
               FixedWidth(u.clockSeq, 4, 16), FixedWidth(u.node, 12, 16)];
    assert forall i :: 0 <= i < 5 ==> AllDigits(gs[i], 16);
    NoDashInDigits(gs[0]); NoDashInDigits(gs[1]); NoDashInDigits(gs[2]); NoDashInDigits(gs[3]); NoDashInDigits(gs[4]);
    gs
  }

  /** `UUID.toString()`: the groups joined by dashes. */
  function FormatUuid(u: Uuid): (r: string)
    ensures |r| == 36
  {
    var gs := Groups(u);
    var r := Join(gs, '-');
    assert gs[4..][1..] == [] && gs[3..][1..] == gs[4..] && gs[2..][1..] == gs[3..] && gs[1..][1..] == gs[2..];
    assert |Join(gs[4..], '-')| == 12;
    assert |Join(gs[3..], '-')| == 17;
    assert |Join(gs[2..], '-')| == 22;
    assert |Join(gs[1..], '-')| == 27;
    r
  }

  lemma NoDashInDigits(g: string)
    requires AllDigits(g, 16)
    ensures '-' !in g
  {
  }

  lemma PowHex()
    ensures Pow(16, 4) == 0x1_0000 && Pow(16, 8) == 0x1_0000_0000 && Pow(16, 12) == 0x1_0000_0000_0000
  {
    calc {
      Pow(16, 4);
      16 * Pow(16, 3);
      16 * (16 * Pow(16, 2));
      16 * (16 * (16 * Pow(16, 1)));
      16 * (16 * (16 * (16 * Pow(16, 0))));
      0x1_0000;
    }
    assert Pow(16, 8) == 0x1_0000_0000 by {
      assert Pow(16, 8) == 16 * 16 * 16 * 16 * Pow(16, 4);
    }
    assert Pow(16, 12) == 0x1_0000_0000_0000 by {
      assert Pow(16, 12) == 16 * 16 * 16 * 16 * Pow(16, 8);
    }
  }

  /** A group written as `width` lower-case digits parses back to its value. */
  lemma ParseHexGroupFixedWidth(n: nat, width: nat)
    requires 1 <= width <= 12 && n < Pow(16, width)
    ensures ParseHexGroup(FixedWidth(n, width, 16)) == Some(n)
  {
    var g := FixedWidth(n, width, 16);
    ValueOfFixedWidth(n, width, 16);
    assert CharDigit(g[0], 16) >= 0;
    PowMonotone(width, 12);
    PowHex();
  }

  lemma {:induction false} PowMonotone(a: nat, b: nat)
    requires a <= b
    ensures Pow(16, a) <= Pow(16, b)
    decreases b
  {
    if a < b {
      PowMonotone(a, b - 1);
    }
  }

  /** Group `i` of `u` as a number, and the number of hexadecimal digits it is written with. */
  function Field(u: Uuid, i: nat): nat
    requires i < 5
  {
    match i
    case 0 => u.timeLow
    case 1 => u.timeMid
    case 2 => u.timeHigh
    case 3 => u.clockSeq
    case _ => u.node
  }

  function Width(i: nat): nat
    requires i < 5
  {
    if i == 0 then 8 else if i == 4 then 12 else 4
  }

  lemma GroupParses(u: Uuid, i: nat)
    requires i < 5
    ensures ParseHexGroup(Groups(u)[i]) == Some(Field(u, i))
  {
    PowHex();
    assert Groups(u)[i] == FixedWidth(Field(u, i), Width(i), 16);
    ParseHexGroupFixedWidth(Field(u, i), Width(i));
  }

  lemma InRangeMasks(u: Uuid)
    ensures u.timeLow % 0x1_0000_0000 == u.timeLow && u.timeMid % 0x1_0000 == u.timeMid
    ensures u.timeHigh % 0x1_0000 == u.timeHigh && u.clockSeq % 0x1_0000 == u.clockSeq
    ensures u.node % 0x1_0000_0000_0000 == u.node
  {
  }

  lemma FromParsedGroups(u: Uuid)
    requires ParseHexGroup(Groups(u)[0]) == Some(u.timeLow)
    requires ParseHexGroup(Groups(u)[1]) == Some(u.timeMid)
    requires ParseHexGroup(Groups(u)[2]) == Some(u.timeHigh)
    requires ParseHexGroup(Groups(u)[3]) == Some(u.clockSeq)
    requires ParseHexGroup(Groups(u)[4]) == Some(u.node)
    ensures FromGroups(Groups(u)) == Some(u)
  {
    InRangeMasks(u);
  }

  lemma FromGroupsOfGroups(u: Uuid)
    ensures FromGroups(Groups(u)) == Some(u)
  {
    GroupParses(u, 0);
    GroupParses(u, 1);
    GroupParses(u, 2);
    GroupParses(u, 3);
    GroupParses(u, 4);
    FromParsedGroups(u);
  }

  /** `UUID.fromString(u.toString())` gives `u` back. */
  lemma ParseFormat(u: Uuid)
    ensures ParseUuid(FormatUuid(u)) == Some(u)
  {
    var gs := Groups(u);
    FieldsOfJoin(gs, '-');
    assert Fields(FormatUuid(u), '-') == gs;
    FromGroupsOfGroups(u);
  }

  /** Two UUIDs with the same text are the same UUID. */
  lemma FormatInjective(u: Uuid, v: Uuid)
    requires FormatUuid(u) == FormatUuid(v)
    ensures u == v
  {
    ParseFormat(u);
    ParseFormat(v);
  }
}
