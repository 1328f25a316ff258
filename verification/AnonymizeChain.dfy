/** A dump on which the order of the GUID substitutions matters. */
module AnonymizeChain {
  import opened Order
  import opened Anonymize
  import opened AnonymizeGuids
  import opened AnonymizeFabric

  lemma SmallNumbers()
    ensures 0xaa < Pow16(16)
  {
    assert Pow16(16) == 256 * Pow16(14);
  }

  /** The GUIDs 0x02 and 0xaa, which happen to look generated. */
  function Two(): (g: string)
    ensures IsGuid(g)
  {
    SmallNumbers();
    NumberedGuid(2)
  }

  function Aa(): (g: string)
    ensures IsGuid(g)
  {
    SmallNumbers();
    NumberedGuid(0xaa)
  }

  /** A text that holds them. */
  function Dump(): string {
    Two() + [' '] + Aa()
  }

  lemma {:induction false} LessAfterPrefix(p: string, a: string, b: string)
    requires Less(a, b)
    ensures Less(p + a, p + b)
  {
    if p == "" {
      assert p + a == a && p + b == b;
    } else {
      LessAfterPrefix(p[1..], a, b);
      assert (p + a)[1..] == p[1..] + a && (p + b)[1..] == p[1..] + b;
    }
  }

  lemma LastDigits(n: nat)
    requires n < 256 && n < Pow16(16)
    ensures Pow16(14) > 0 && Hex(n, 16) == Hex(0, 14) + [HexDigit(n / 16), HexDigit(n % 16)]
  {
    hide Hex, HexDigit;
    assert n / 16 / 16 == 0 && n / 16 % 16 == n / 16;
    SmallPowers();
    HexEnd(n, 16);
    HexEnd(n / 16, 15);
  }

  lemma SmallPowers()
    ensures Pow16(16) == 16 * Pow16(15) && Pow16(15) == 16 * Pow16(14) && Pow16(14) > 0
  {
  }

  lemma HexEnd(n: nat, width: nat)
    requires width > 0 && n < Pow16(width)
    ensures n / 16 < Pow16(width - 1) && Hex(n, width) == Hex(n / 16, width - 1) + [HexDigit(n % 16)]
  {
    hide HexDigit;
  }

  /** 0x02 sorts before 0xaa: they share fourteen zeros. */
  lemma Spelled()
    ensures Two() == "0x" + Hex(0, 14) + "02" && Aa() == "0x" + Hex(0, 14) + "aa"
  {
    hide Hex, Pow16;
    SmallNumbers();
    LastDigits(2);
    LastDigits(0xaa);
    assert "0x" + (Hex(0, 14) + "02") == "0x" + Hex(0, 14) + "02";
    assert "0x" + (Hex(0, 14) + "aa") == "0x" + Hex(0, 14) + "aa";
  }

  lemma TwoBeforeAa()
    ensures Less(Two(), Aa()) && Two() != Aa()
  {
    hide Two, Aa, Hex, Pow16;
    Spelled();
    assert Less("02", "aa");
    LessAfterPrefix("0x" + Hex(0, 14), "02", "aa");
    LessTotal(Two(), Aa());
  }

  lemma SortOfTwo(a: string, b: string)
    requires Less(a, b)
    ensures Sort([a, b]) == [a, b]
  {
    assert [a, b][1..] == [b] && [b][1..] == [];
    assert Sort([b]) == [b];
  }

  lemma GuidsOfDump()
    ensures Guids(Dump()) == [Two(), Aa()] && Separated(Dump())
  {
    hide Two, Aa, IsGuid, Guids, Separated;
    PartByPart(Two(), ' ', Aa(), map[]);
    GuidIsRenamed(Two(), map[]);
    GuidIsRenamed(Aa(), map[]);
  }

  lemma SecondNumber(m: map<string, string>, guids: seq<string>)
    requires |guids| == 2 && NumbersGuidsInOrder(m, guids)
    ensures guids[0] in m && guids[1] in m && m[guids[1]] == Two()
  {
    hide Pow16;
    SmallNumbers();
    assert NumberedGuid(1 + 1) == Two();
  }

  /**
   * A separated dump that meets the chain: its GUIDs 0x02 and 0xaa, sorted, are numbered 0x01 and 0x02, so 0xaa takes
   * for its number another source.
   */
  lemma NumberOfAnotherSource(m: map<string, string>)
    requires NumbersGuidsInOrder(m, Sort(Guids(Dump())))
    ensures Separated(Dump()) && Sort(Guids(Dump())) == [Two(), Aa()] && !NoChain(m)
  {
    hide Two, Aa, IsGuid, Guids, Separated, NumbersGuidsInOrder, Dump, Less;
    GuidsOfDump();
    TwoBeforeAa();
    SortOfTwo(Two(), Aa());
    SecondNumber(m, [Two(), Aa()]);
  }
}
