/** The example of section 2.3.2 of RFC 8439: the first block of key stream for key 0, 1, ..., 31. */
module ChaChaAnswer {
  import opened MachineInts
  import opened Words
  import opened WordBits
  import opened Rows
  import opened StateBits
  import opened ChaCha20
  import opened ChaChaBits
  import opened ChaChaStream
  import opened Bytes

  function Key(): (k: seq<byte>)
    ensures |k| == 32
  {
    seq(32, i requires 0 <= i < 32 => i as byte)
  }

  function Nonce(): (n: seq<byte>)
    ensures |n| == 12
  {
    [0, 0, 0, 0x09, 0, 0, 0, 0x4A, 0, 0, 0, 0]
  }

  function Final(): Sixteen {
    [0xE4E7F110, 0x15593BD1, 0x1FDD0F50, 0xC47120A3, 0xC7F4D1C7, 0x368C033, 0x9AAA2204, 0x4E6CD4C3,
     0x466482D2, 0x9AA9F07, 0x5D7C214, 0xA2028BD9, 0xD19C12B5, 0xB94E16DE, 0xE883D0CB, 0x4E3C50A2]
  }

  lemma KeyWord(i: nat)
    requires i < 8
    ensures Load32(Key(), 4*i) as int == 0x0302_0100 + 0x0404_0404*i
  {}

  function Words16(): Sixteen {
    [0x61707865, 0x3320646E, 0x79622D32, 0x6B206574, 0x3020100, 0x7060504, 0xB0A0908, 0xF0E0D0C,
     0x13121110, 0x17161514, 0x1B1A1918, 0x1F1E1D1C, 0x1, 0x9000000, 0x4A000000, 0]
  }

  lemma InitialWords()
    ensures Initial(Key(), Nonce()[4..], Counter(Nonce(), 1)) == Words16()
  {
    KeyWord(0);
    KeyWord(1);
    KeyWord(2);
    KeyWord(3);
    KeyWord(4);
    KeyWord(5);
    KeyWord(6);
    KeyWord(7);
    hide Key;
  }

  lemma Rounds1(start: Sixteen)
    requires Reached(start, 0,
      Vector(0x61707865, 0x3320646E, 0x79622D32, 0x6B206574, 0x3020100, 0x7060504, 0xB0A0908, 0xF0E0D0C,
             0x13121110, 0x17161514, 0x1B1A1918, 0x1F1E1D1C, 0x1, 0x9000000, 0x4A000000, 0))
    ensures Reached(start, 2,
      Vector(0xCF1A7584, 0x48927EC, 0x54051FDA, 0xC244FF28, 0x901D2F40, 0x7974B81C, 0x378DCFB4, 0xCD47FD0E,
             0x2DAFB216, 0x27C89CD6, 0xCD3C9AA0, 0x79FC89C7, 0x10AEF18D, 0x16218765, 0x68F76705, 0x4D6EE22))
  {
    hide Reached;
    OneMore(start, 0,
      Vector(0x61707865, 0x3320646E, 0x79622D32, 0x6B206574, 0x3020100, 0x7060504, 0xB0A0908, 0xF0E0D0C,
             0x13121110, 0x17161514, 0x1B1A1918, 0x1F1E1D1C, 0x1, 0x9000000, 0x4A000000, 0));
    OneMore(start, 1,
      Vector(0xCD52E917, 0x85AB03B4, 0xB3457395, 0xF96DE7DD, 0xC4B7CD22, 0x5C2E187A, 0xC95EB461, 0x316C801A,
             0x7BF7D740, 0x7EDDD644, 0xF1A1BDF5, 0x761246CA, 0x6B0D58A3, 0x6798471A, 0xD737F167, 0xF173888D));
  }

  lemma Rounds2(start: Sixteen)
    requires Reached(start, 2,
      Vector(0xCF1A7584, 0x48927EC, 0x54051FDA, 0xC244FF28, 0x901D2F40, 0x7974B81C, 0x378DCFB4, 0xCD47FD0E,
             0x2DAFB216, 0x27C89CD6, 0xCD3C9AA0, 0x79FC89C7, 0x10AEF18D, 0x16218765, 0x68F76705, 0x4D6EE22))
    ensures Reached(start, 4,
      Vector(0x9A2D3589, 0xB23FC4E, 0x40AF3B6B, 0xCEEA8144, 0xA1BFFC6, 0x5E5993F7, 0x9904C2E7, 0xD334718,
             0xE46C6354, 0xC9503229, 0x4FEF5AA, 0xF8933F72, 0x2687D476, 0x54E65231, 0x3594FFC5, 0x2B3BB2CA))
  {
    hide Reached;
    OneMore(start, 2,
      Vector(0xCF1A7584, 0x48927EC, 0x54051FDA, 0xC244FF28, 0x901D2F40, 0x7974B81C, 0x378DCFB4, 0xCD47FD0E,
             0x2DAFB216, 0x27C89CD6, 0xCD3C9AA0, 0x79FC89C7, 0x10AEF18D, 0x16218765, 0x68F76705, 0x4D6EE22));
    OneMore(start, 3,
      Vector(0x3A14032, 0x66B15927, 0x9D6B6B42, 0xB84C4109, 0xA7143AE0, 0xA09B33DD, 0xA5DAAF88, 0x2FD91A73,
             0xC90C6B18, 0x5A202413, 0xC20E01B6, 0x72CD6B74, 0xBA35D777, 0xB360F1BF, 0x8178315B, 0x2CD11B1A));
  }

  lemma Rounds3(start: Sixteen)
    requires Reached(start, 4,
      Vector(0x9A2D3589, 0xB23FC4E, 0x40AF3B6B, 0xCEEA8144, 0xA1BFFC6, 0x5E5993F7, 0x9904C2E7, 0xD334718,
             0xE46C6354, 0xC9503229, 0x4FEF5AA, 0xF8933F72, 0x2687D476, 0x54E65231, 0x3594FFC5, 0x2B3BB2CA))
    ensures Reached(start, 6,
      Vector(0x4A3131A, 0x66176309, 0x415BAB1, 0x61B880A2, 0x36CC86C7, 0xBF8A4465, 0xF77DD720, 0xFC0BDC90,
             0x7D13ACA, 0xEB0BE9AF, 0x61599491, 0x918512DC, 0x33B6686D, 0x795CC671, 0xC0049972, 0xA0A81BDE))
  {
    hide Reached;
    OneMore(start, 4,
      Vector(0x9A2D3589, 0xB23FC4E, 0x40AF3B6B, 0xCEEA8144, 0xA1BFFC6, 0x5E5993F7, 0x9904C2E7, 0xD334718,
             0xE46C6354, 0xC9503229, 0x4FEF5AA, 0xF8933F72, 0x2687D476, 0x54E65231, 0x3594FFC5, 0x2B3BB2CA));
    OneMore(start, 5,
      Vector(0xC53318C5, 0xCA325D96, 0x7E7D11CB, 0x3404E2CA, 0x26D7CF73, 0x6088D379, 0xC0F0E9BD, 0xE310CDB9,
             0xAE2CA8DB, 0x42F67C72, 0x71669ACA, 0x975C171D, 0x9E5EC228, 0x7D85A9F3, 0x201D0756, 0x63FA6953));
  }

  lemma Rounds4(start: Sixteen)
    requires Reached(start, 6,
      Vector(0x4A3131A, 0x66176309, 0x415BAB1, 0x61B880A2, 0x36CC86C7, 0xBF8A4465, 0xF77DD720, 0xFC0BDC90,
             0x7D13ACA, 0xEB0BE9AF, 0x61599491, 0x918512DC, 0x33B6686D, 0x795CC671, 0xC0049972, 0xA0A81BDE))
    ensures Reached(start, 8,
      Vector(0xCA5C85DD, 0x93A4F90E, 0xD9F0DF58, 0x26DD82DD, 0x982563F8, 0x712AA9FF, 0x279A61E8, 0x970F72BD,
             0x1C25931A, 0x5180BB10, 0x779C27E7, 0x54077E08, 0xA9B751FB, 0x382F3CE2, 0x8DB1757D, 0xCC38080B))
  {
    hide Reached;
    OneMore(start, 6,
      Vector(0x4A3131A, 0x66176309, 0x415BAB1, 0x61B880A2, 0x36CC86C7, 0xBF8A4465, 0xF77DD720, 0xFC0BDC90,
             0x7D13ACA, 0xEB0BE9AF, 0x61599491, 0x918512DC, 0x33B6686D, 0x795CC671, 0xC0049972, 0xA0A81BDE));
    OneMore(start, 7,
      Vector(0x9B70F51F, 0x7EA8AC11, 0x21E54DA9, 0xCA393B2F, 0x93B08686, 0x6A4C50AE, 0x19212A5A, 0x9B032958,
             0xD839165E, 0x4C06E28A, 0xD3FDE99E, 0x26ACC13D, 0xA609F555, 0x2C246549, 0x95151853, 0x2C847A0D));
  }

  lemma Rounds5(start: Sixteen)
    requires Reached(start, 8,
      Vector(0xCA5C85DD, 0x93A4F90E, 0xD9F0DF58, 0x26DD82DD, 0x982563F8, 0x712AA9FF, 0x279A61E8, 0x970F72BD,
             0x1C25931A, 0x5180BB10, 0x779C27E7, 0x54077E08, 0xA9B751FB, 0x382F3CE2, 0x8DB1757D, 0xCC38080B))
    ensures Reached(start, 10,
      Vector(0x837778AB, 0xE238D763, 0xA67AE21E, 0x5950BB2F, 0xC4F2D0C7, 0xFC62BB2F, 0x8FA018FC, 0x3F5EC7B7,
             0x335271C2, 0xF29489F3, 0xEABDA8FC, 0x82E46EBD, 0xD19C12B4, 0xB04E16DE, 0x9E83D0CB, 0x4E3C50A2))
  {
    hide Reached;
    OneMore(start, 8,
      Vector(0xCA5C85DD, 0x93A4F90E, 0xD9F0DF58, 0x26DD82DD, 0x982563F8, 0x712AA9FF, 0x279A61E8, 0x970F72BD,
             0x1C25931A, 0x5180BB10, 0x779C27E7, 0x54077E08, 0xA9B751FB, 0x382F3CE2, 0x8DB1757D, 0xCC38080B));
    OneMore(start, 9,
      Vector(0xB6B87DE6, 0x9A016148, 0x93859815, 0x4915E6CC, 0xDC33C122, 0x98E18FA3, 0x5FFBE8FC, 0xF7154B8B,
             0x28C1FCB3, 0xC4B38F9D, 0x83E2F5D7, 0x7D24B98B, 0x21078B22, 0xB193E7A3, 0xB2F49389, 0x6CDE6026));
  }

  lemma Added()
    ensures SumBits(
      Vector(0x837778AB, 0xE238D763, 0xA67AE21E, 0x5950BB2F, 0xC4F2D0C7, 0xFC62BB2F, 0x8FA018FC, 0x3F5EC7B7,
             0x335271C2, 0xF29489F3, 0xEABDA8FC, 0x82E46EBD, 0xD19C12B4, 0xB04E16DE, 0x9E83D0CB, 0x4E3C50A2),
      Vector(0x61707865, 0x3320646E, 0x79622D32, 0x6B206574, 0x3020100, 0x7060504, 0xB0A0908, 0xF0E0D0C,
             0x13121110, 0x17161514, 0x1B1A1918, 0x1F1E1D1C, 0x1, 0x9000000, 0x4A000000, 0)) ==
      Vector(0xE4E7F110, 0x15593BD1, 0x1FDD0F50, 0xC47120A3, 0xC7F4D1C7, 0x368C033, 0x9AAA2204, 0x4E6CD4C3,
             0x466482D2, 0x9AA9F07, 0x5D7C214, 0xA2028BD9, 0xD19C12B5, 0xB94E16DE, 0xE883D0CB, 0x4E3C50A2)
  {}

  lemma Numbers()
    ensures Flat(RowsOf(
      Vector(0xE4E7F110, 0x15593BD1, 0x1FDD0F50, 0xC47120A3, 0xC7F4D1C7, 0x368C033, 0x9AAA2204, 0x4E6CD4C3,
             0x466482D2, 0x9AA9F07, 0x5D7C214, 0xA2028BD9, 0xD19C12B5, 0xB94E16DE, 0xE883D0CB, 0x4E3C50A2))) == Final()
  {
    hide Value;
    ValueHex(0xE4E7F110);
    ValueHex(0x15593BD1);
    ValueHex(0x1FDD0F50);
    ValueHex(0xC47120A3);
    ValueHex(0xC7F4D1C7);
    ValueHex(0x368C033);
    ValueHex(0x9AAA2204);
    ValueHex(0x4E6CD4C3);
    ValueHex(0x466482D2);
    ValueHex(0x9AA9F07);
    ValueHex(0x5D7C214);
    ValueHex(0xA2028BD9);
    ValueHex(0xD19C12B5);
    ValueHex(0xB94E16DE);
    ValueHex(0xE883D0CB);
    ValueHex(0x4E3C50A2);
  }

  lemma StartNumbers()
    ensures Flat(RowsOf(
      Vector(0x61707865, 0x3320646E, 0x79622D32, 0x6B206574, 0x3020100, 0x7060504, 0xB0A0908, 0xF0E0D0C,
             0x13121110, 0x17161514, 0x1B1A1918, 0x1F1E1D1C, 0x1, 0x9000000, 0x4A000000, 0))) == Words16()
  {
    hide Value;
    ValueHex(0x61707865);
    ValueHex(0x3320646E);
    ValueHex(0x79622D32);
    ValueHex(0x6B206574);
    ValueHex(0x3020100);
    ValueHex(0x7060504);
    ValueHex(0xB0A0908);
    ValueHex(0xF0E0D0C);
    ValueHex(0x13121110);
    ValueHex(0x17161514);
    ValueHex(0x1B1A1918);
    ValueHex(0x1F1E1D1C);
    ValueHex(0x1);
    ValueHex(0x9000000);
    ValueHex(0x4A000000);
    ValueHex(0);
  }

  /** The state at the end, as the standard prints it */
  lemma Answer(start: Sixteen)
    requires start == Initial(Key(), Nonce()[4..], Counter(Nonce(), 1))
    ensures Block(start) == Final()
  {
    hide Initial, Flat, RowsOf, DoubleRounds, Final, Sum, SumBits, Words16;
    InitialWords();
    StartNumbers();
    NoRounds(start);
    Rounds1(start);
    Rounds2(start);
    Rounds3(start);
    Rounds4(start);
    Rounds5(start);
    SumValue(
      Vector(0x837778AB, 0xE238D763, 0xA67AE21E, 0x5950BB2F, 0xC4F2D0C7, 0xFC62BB2F, 0x8FA018FC, 0x3F5EC7B7,
             0x335271C2, 0xF29489F3, 0xEABDA8FC, 0x82E46EBD, 0xD19C12B4, 0xB04E16DE, 0x9E83D0CB, 0x4E3C50A2),
      Vector(0x61707865, 0x3320646E, 0x79622D32, 0x6B206574, 0x3020100, 0x7060504, 0xB0A0908, 0xF0E0D0C,
             0x13121110, 0x17161514, 0x1B1A1918, 0x1F1E1D1C, 0x1, 0x9000000, 0x4A000000, 0));
    Added();
    Numbers();
  }

  lemma NoRounds(v: Sixteen)
    ensures DoubleRounds(v, 0) == v
  {}
}
