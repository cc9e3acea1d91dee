/**
 BLAKE2s on one full block, the bytes 0 to 63, down to the digest, and the first round
 of the worked example in appendix B of RFC 7693.
 */
module Blake2sAnswer {
  import opened MachineInts
  import opened Words
  import opened WordBits
  import opened Rows
  import opened StateBits
  import opened Blake2sCompress
  import opened Blake2s
  import opened Blake2sBits
  import opened Bytes

  /** The message block, word by word */
  ghost predicate Message(w: Sixteen) {
    forall i | 0 <= i < 16 :: w[i] == Value(Nth(Block(), i))
  }

  function Block(): Vector {
    Vector(0x3020100, 0x7060504, 0xB0A0908, 0xF0E0D0C, 0x13121110, 0x17161514, 0x1B1A1918, 0x1F1E1D1C,
           0x23222120, 0x27262524, 0x2B2A2928, 0x2F2E2D2C, 0x33323130, 0x37363534, 0x3B3A3938, 0x3F3E3D3C)
  }

  lemma Schedule0(w: Sixteen)
    requires Message(w)
    ensures Scheduled(w, SIGMA[0],
      Vector(0x3020100, 0x7060504, 0xB0A0908, 0xF0E0D0C, 0x13121110, 0x17161514, 0x1B1A1918, 0x1F1E1D1C,
             0x23222120, 0x27262524, 0x2B2A2928, 0x2F2E2D2C, 0x33323130, 0x37363534, 0x3B3A3938, 0x3F3E3D3C))
  {
    hide Value;
    assert SIGMA[0] == [0, 1, 2, 3, 4, 5, 6, 7, 8, 9, 10, 11, 12, 13, 14, 15];
  }

  lemma Schedule1(w: Sixteen)
    requires Message(w)
    ensures Scheduled(w, SIGMA[1],
      Vector(0x3B3A3938, 0x2B2A2928, 0x13121110, 0x23222120, 0x27262524, 0x3F3E3D3C, 0x37363534, 0x1B1A1918,
             0x7060504, 0x33323130, 0x3020100, 0xB0A0908, 0x2F2E2D2C, 0x1F1E1D1C, 0x17161514, 0xF0E0D0C))
  {
    hide Value;
    assert SIGMA[1] == [14, 10, 4, 8, 9, 15, 13, 6, 1, 12, 0, 2, 11, 7, 5, 3];
  }

  lemma Schedule2(w: Sixteen)
    requires Message(w)
    ensures Scheduled(w, SIGMA[2],
      Vector(0x2F2E2D2C, 0x23222120, 0x33323130, 0x3020100, 0x17161514, 0xB0A0908, 0x3F3E3D3C, 0x37363534,
             0x2B2A2928, 0x3B3A3938, 0xF0E0D0C, 0x1B1A1918, 0x1F1E1D1C, 0x7060504, 0x27262524, 0x13121110))
  {
    hide Value;
    assert SIGMA[2] == [11, 8, 12, 0, 5, 2, 15, 13, 10, 14, 3, 6, 7, 1, 9, 4];
  }

  lemma Schedule3(w: Sixteen)
    requires Message(w)
    ensures Scheduled(w, SIGMA[3],
      Vector(0x1F1E1D1C, 0x27262524, 0xF0E0D0C, 0x7060504, 0x37363534, 0x33323130, 0x2F2E2D2C, 0x3B3A3938,
             0xB0A0908, 0x1B1A1918, 0x17161514, 0x2B2A2928, 0x13121110, 0x3020100, 0x3F3E3D3C, 0x23222120))
  {
    hide Value;
    assert SIGMA[3] == [7, 9, 3, 1, 13, 12, 11, 14, 2, 6, 5, 10, 4, 0, 15, 8];
  }

  lemma Schedule4(w: Sixteen)
    requires Message(w)
    ensures Scheduled(w, SIGMA[4],
      Vector(0x27262524, 0x3020100, 0x17161514, 0x1F1E1D1C, 0xB0A0908, 0x13121110, 0x2B2A2928, 0x3F3E3D3C,
             0x3B3A3938, 0x7060504, 0x2F2E2D2C, 0x33323130, 0x1B1A1918, 0x23222120, 0xF0E0D0C, 0x37363534))
  {
    hide Value;
    assert SIGMA[4] == [9, 0, 5, 7, 2, 4, 10, 15, 14, 1, 11, 12, 6, 8, 3, 13];
  }

  lemma Schedule5(w: Sixteen)
    requires Message(w)
    ensures Scheduled(w, SIGMA[5],
      Vector(0xB0A0908, 0x33323130, 0x1B1A1918, 0x2B2A2928, 0x3020100, 0x2F2E2D2C, 0x23222120, 0xF0E0D0C,
             0x13121110, 0x37363534, 0x1F1E1D1C, 0x17161514, 0x3F3E3D3C, 0x3B3A3938, 0x7060504, 0x27262524))
  {
    hide Value;
    assert SIGMA[5] == [2, 12, 6, 10, 0, 11, 8, 3, 4, 13, 7, 5, 15, 14, 1, 9];
  }

  lemma Schedule6(w: Sixteen)
    requires Message(w)
    ensures Scheduled(w, SIGMA[6],
      Vector(0x33323130, 0x17161514, 0x7060504, 0x3F3E3D3C, 0x3B3A3938, 0x37363534, 0x13121110, 0x2B2A2928,
             0x3020100, 0x1F1E1D1C, 0x1B1A1918, 0xF0E0D0C, 0x27262524, 0xB0A0908, 0x23222120, 0x2F2E2D2C))
  {
    hide Value;
    assert SIGMA[6] == [12, 5, 1, 15, 14, 13, 4, 10, 0, 7, 6, 3, 9, 2, 8, 11];
  }

  lemma Schedule7(w: Sixteen)
    requires Message(w)
    ensures Scheduled(w, SIGMA[7],
      Vector(0x37363534, 0x2F2E2D2C, 0x1F1E1D1C, 0x3B3A3938, 0x33323130, 0x7060504, 0xF0E0D0C, 0x27262524,
             0x17161514, 0x3020100, 0x3F3E3D3C, 0x13121110, 0x23222120, 0x1B1A1918, 0xB0A0908, 0x2B2A2928))
  {
    hide Value;
    assert SIGMA[7] == [13, 11, 7, 14, 12, 1, 3, 9, 5, 0, 15, 4, 8, 6, 2, 10];
  }

  lemma Schedule8(w: Sixteen)
    requires Message(w)
    ensures Scheduled(w, SIGMA[8],
      Vector(0x1B1A1918, 0x3F3E3D3C, 0x3B3A3938, 0x27262524, 0x2F2E2D2C, 0xF0E0D0C, 0x3020100, 0x23222120,
             0x33323130, 0xB0A0908, 0x37363534, 0x1F1E1D1C, 0x7060504, 0x13121110, 0x2B2A2928, 0x17161514))
  {
    hide Value;
    assert SIGMA[8] == [6, 15, 14, 9, 11, 3, 0, 8, 12, 2, 13, 7, 1, 4, 10, 5];
  }

  lemma Schedule9(w: Sixteen)
    requires Message(w)
    ensures Scheduled(w, SIGMA[9],
      Vector(0x2B2A2928, 0xB0A0908, 0x23222120, 0x13121110, 0x1F1E1D1C, 0x1B1A1918, 0x7060504, 0x17161514,
             0x3F3E3D3C, 0x2F2E2D2C, 0x27262524, 0x3B3A3938, 0xF0E0D0C, 0x33323130, 0x37363534, 0x3020100))
  {
    hide Value;
    assert SIGMA[9] == [10, 2, 8, 4, 7, 6, 1, 5, 15, 11, 9, 14, 3, 12, 13, 0];
  }

  lemma Rounds1(w: Sixteen, start: Sixteen)
    requires Message(w) && Reached(w, start, 0,
      Vector(0x6B08E647, 0xBB67AE85, 0x3C6EF372, 0xA54FF53A, 0x510E527F, 0x9B05688C, 0x1F83D9AB, 0x5BE0CD19,
             0x6A09E667, 0xBB67AE85, 0x3C6EF372, 0xA54FF53A, 0x510E523F, 0x9B05688C, 0xE07C2654, 0x5BE0CD19))
    ensures Reached(w, start, 2,
      Vector(0x3B9D4616, 0x5B27BE34, 0x80A2323C, 0x52D84EC6, 0x4B79FC2B, 0xA72DD3F5, 0x6AC368A8, 0xC226ABF3,
             0x8F2A0FE5, 0x3BE69746, 0xE47B6B4E, 0x7611BA9C, 0x62FBBC52, 0xEFED5A25, 0x29A5AA70, 0xB20084A0))
  {
    hide Message, Scheduled, Reached;
    Schedule0(w);
    Advance(w, start, 0,
      Vector(0x6B08E647, 0xBB67AE85, 0x3C6EF372, 0xA54FF53A, 0x510E527F, 0x9B05688C, 0x1F83D9AB, 0x5BE0CD19,
             0x6A09E667, 0xBB67AE85, 0x3C6EF372, 0xA54FF53A, 0x510E523F, 0x9B05688C, 0xE07C2654, 0x5BE0CD19),
      Vector(0x3020100, 0x7060504, 0xB0A0908, 0xF0E0D0C, 0x13121110, 0x17161514, 0x1B1A1918, 0x1F1E1D1C,
             0x23222120, 0x27262524, 0x2B2A2928, 0x2F2E2D2C, 0x33323130, 0x37363534, 0x3B3A3938, 0x3F3E3D3C));
    Schedule1(w);
    Advance(w, start, 1,
      Vector(0x551AE487, 0xE4DA2403, 0xA9BD8475, 0x9CFF5828, 0xB1C137B7, 0x211191B6, 0x1C8076E8, 0xBFD91C64,
             0xB19E36B, 0x17F28882, 0x9D165FA, 0x8768D435, 0x167C077F, 0xAA7CF6CD, 0xBD0F4BB0, 0x1161DE54),
      Vector(0x3B3A3938, 0x2B2A2928, 0x13121110, 0x23222120, 0x27262524, 0x3F3E3D3C, 0x37363534, 0x1B1A1918,
             0x7060504, 0x33323130, 0x3020100, 0xB0A0908, 0x2F2E2D2C, 0x1F1E1D1C, 0x17161514, 0xF0E0D0C));
  }

  lemma Rounds2(w: Sixteen, start: Sixteen)
    requires Message(w) && Reached(w, start, 2,
      Vector(0x3B9D4616, 0x5B27BE34, 0x80A2323C, 0x52D84EC6, 0x4B79FC2B, 0xA72DD3F5, 0x6AC368A8, 0xC226ABF3,
             0x8F2A0FE5, 0x3BE69746, 0xE47B6B4E, 0x7611BA9C, 0x62FBBC52, 0xEFED5A25, 0x29A5AA70, 0xB20084A0))
    ensures Reached(w, start, 4,
      Vector(0x154A0882, 0xC0F872A9, 0xCDA5FA80, 0x1AE3CE5D, 0xD537D0FC, 0x74270B05, 0x804A803D, 0x15F6C727,
             0xAA892030, 0x8663848E, 0x5B7207BA, 0x2A63780D, 0xFF6586F3, 0x98E2E581, 0x14252609, 0xE8D5629A))
  {
    hide Message, Scheduled, Reached;
    Schedule2(w);
    Advance(w, start, 2,
      Vector(0x3B9D4616, 0x5B27BE34, 0x80A2323C, 0x52D84EC6, 0x4B79FC2B, 0xA72DD3F5, 0x6AC368A8, 0xC226ABF3,
             0x8F2A0FE5, 0x3BE69746, 0xE47B6B4E, 0x7611BA9C, 0x62FBBC52, 0xEFED5A25, 0x29A5AA70, 0xB20084A0),
      Vector(0x2F2E2D2C, 0x23222120, 0x33323130, 0x3020100, 0x17161514, 0xB0A0908, 0x3F3E3D3C, 0x37363534,
             0x2B2A2928, 0x3B3A3938, 0xF0E0D0C, 0x1B1A1918, 0x1F1E1D1C, 0x7060504, 0x27262524, 0x13121110));
    Schedule3(w);
    Advance(w, start, 3,
      Vector(0xAF350697, 0x3DEA9EFB, 0x6B203D35, 0x2DF0DF0A, 0x7B7E656B, 0xAADCB9F4, 0xDA9C0AB4, 0x695D5939,
             0x73430219, 0x3C6DFEFB, 0xBD737C02, 0xC25FAD9F, 0x3C65EE38, 0xDA6E9792, 0x75EAAA99, 0xD19FFAA2),
      Vector(0x1F1E1D1C, 0x27262524, 0xF0E0D0C, 0x7060504, 0x37363534, 0x33323130, 0x2F2E2D2C, 0x3B3A3938,
             0xB0A0908, 0x1B1A1918, 0x17161514, 0x2B2A2928, 0x13121110, 0x3020100, 0x3F3E3D3C, 0x23222120));
  }

  lemma Rounds3(w: Sixteen, start: Sixteen)
    requires Message(w) && Reached(w, start, 4,
      Vector(0x154A0882, 0xC0F872A9, 0xCDA5FA80, 0x1AE3CE5D, 0xD537D0FC, 0x74270B05, 0x804A803D, 0x15F6C727,
             0xAA892030, 0x8663848E, 0x5B7207BA, 0x2A63780D, 0xFF6586F3, 0x98E2E581, 0x14252609, 0xE8D5629A))
    ensures Reached(w, start, 6,
      Vector(0x7A2D7EB, 0x980D89FB, 0x1DBB754A, 0x87BDCFFC, 0x47423157, 0x8D840485, 0x609E81E0, 0xA072B93B,
             0xF3EE74A2, 0x19813072, 0xF383338, 0x78EC244B, 0x3E80FB15, 0x7000A680, 0xB4057018, 0xFB58499D))
  {
    hide Message, Scheduled, Reached;
    Schedule4(w);
    Advance(w, start, 4,
      Vector(0x154A0882, 0xC0F872A9, 0xCDA5FA80, 0x1AE3CE5D, 0xD537D0FC, 0x74270B05, 0x804A803D, 0x15F6C727,
             0xAA892030, 0x8663848E, 0x5B7207BA, 0x2A63780D, 0xFF6586F3, 0x98E2E581, 0x14252609, 0xE8D5629A),
      Vector(0x27262524, 0x3020100, 0x17161514, 0x1F1E1D1C, 0xB0A0908, 0x13121110, 0x2B2A2928, 0x3F3E3D3C,
             0x3B3A3938, 0x7060504, 0x2F2E2D2C, 0x33323130, 0x1B1A1918, 0x23222120, 0xF0E0D0C, 0x37363534));
    Schedule5(w);
    Advance(w, start, 5,
      Vector(0x45306EFF, 0x5E9F47FD, 0xFA8A3725, 0x5122D27E, 0xB2514014, 0xB6D117F, 0xD8A1139A, 0x84D864DF,
             0xDC679F9A, 0x3909446F, 0xA5A51916, 0x51F3A0A6, 0x823F0CC3, 0xD1C0B424, 0x2E86D627, 0x8564DE23),
      Vector(0xB0A0908, 0x33323130, 0x1B1A1918, 0x2B2A2928, 0x3020100, 0x2F2E2D2C, 0x23222120, 0xF0E0D0C,
             0x13121110, 0x37363534, 0x1F1E1D1C, 0x17161514, 0x3F3E3D3C, 0x3B3A3938, 0x7060504, 0x27262524));
  }

  lemma Rounds4(w: Sixteen, start: Sixteen)
    requires Message(w) && Reached(w, start, 6,
      Vector(0x7A2D7EB, 0x980D89FB, 0x1DBB754A, 0x87BDCFFC, 0x47423157, 0x8D840485, 0x609E81E0, 0xA072B93B,
             0xF3EE74A2, 0x19813072, 0xF383338, 0x78EC244B, 0x3E80FB15, 0x7000A680, 0xB4057018, 0xFB58499D))
    ensures Reached(w, start, 8,
      Vector(0xAFE5B773, 0x7C7E4164, 0x372DA8B3, 0x64138A33, 0x1F0AEF51, 0x77716F36, 0x23838A59, 0x22F3F6C,
             0x89621BE7, 0x1F49B200, 0xAE82D736, 0xA79A2122, 0x4D1BA906, 0xCA47E0F0, 0x3D22FF70, 0xAB045142))
  {
    hide Message, Scheduled, Reached;
    Schedule6(w);
    Advance(w, start, 6,
      Vector(0x7A2D7EB, 0x980D89FB, 0x1DBB754A, 0x87BDCFFC, 0x47423157, 0x8D840485, 0x609E81E0, 0xA072B93B,
             0xF3EE74A2, 0x19813072, 0xF383338, 0x78EC244B, 0x3E80FB15, 0x7000A680, 0xB4057018, 0xFB58499D),
      Vector(0x33323130, 0x17161514, 0x7060504, 0x3F3E3D3C, 0x3B3A3938, 0x37363534, 0x13121110, 0x2B2A2928,
             0x3020100, 0x1F1E1D1C, 0x1B1A1918, 0xF0E0D0C, 0x27262524, 0xB0A0908, 0x23222120, 0x2F2E2D2C));
    Schedule7(w);
    Advance(w, start, 7,
      Vector(0x9A74BCBE, 0x2FBD9A24, 0x9AA06AA6, 0xE4538527, 0x9D97659E, 0x4AFFB34B, 0x19E81FDA, 0x64FC7E29,
             0x6892609, 0x143841, 0xA1F49273, 0xA85D4EFF, 0x19BD540F, 0x77121F33, 0x1AA3EA9F, 0x787CF68F),
      Vector(0x37363534, 0x2F2E2D2C, 0x1F1E1D1C, 0x3B3A3938, 0x33323130, 0x7060504, 0xF0E0D0C, 0x27262524,
             0x17161514, 0x3020100, 0x3F3E3D3C, 0x13121110, 0x23222120, 0x1B1A1918, 0xB0A0908, 0x2B2A2928));
  }

  lemma Rounds5(w: Sixteen, start: Sixteen)
    requires Message(w) && Reached(w, start, 8,
      Vector(0xAFE5B773, 0x7C7E4164, 0x372DA8B3, 0x64138A33, 0x1F0AEF51, 0x77716F36, 0x23838A59, 0x22F3F6C,
             0x89621BE7, 0x1F49B200, 0xAE82D736, 0xA79A2122, 0x4D1BA906, 0xCA47E0F0, 0x3D22FF70, 0xAB045142))
    ensures Reached(w, start, 10,
      Vector(0x52CE3F4F, 0x1DCD057, 0x7143AC5D, 0xAA91070D, 0xC0C4A8C8, 0x8F6938EC, 0xCE79480D, 0x4C1373B9,
             0xB2882A5E, 0x2AC52B44, 0x1F66ADEE, 0x5E433AE7, 0x8A0590BF, 0xDB58A660, 0xE2684FBB, 0x29595418))
  {
    hide Message, Scheduled, Reached;
    Schedule8(w);
    Advance(w, start, 8,
      Vector(0xAFE5B773, 0x7C7E4164, 0x372DA8B3, 0x64138A33, 0x1F0AEF51, 0x77716F36, 0x23838A59, 0x22F3F6C,
             0x89621BE7, 0x1F49B200, 0xAE82D736, 0xA79A2122, 0x4D1BA906, 0xCA47E0F0, 0x3D22FF70, 0xAB045142),
      Vector(0x1B1A1918, 0x3F3E3D3C, 0x3B3A3938, 0x27262524, 0x2F2E2D2C, 0xF0E0D0C, 0x3020100, 0x23222120,
             0x33323130, 0xB0A0908, 0x37363534, 0x1F1E1D1C, 0x7060504, 0x13121110, 0x2B2A2928, 0x17161514));
    Schedule9(w);
    Advance(w, start, 9,
      Vector(0xE8DE94CA, 0x323CA86B, 0x1417812, 0x8E20A95A, 0xC3963785, 0xCD870523, 0x5B728F73, 0x2EE70294,
             0xE5F2F14C, 0x69EA170F, 0x4E7B64FB, 0x7708F986, 0xB1474F87, 0x7B5E0394, 0x22EC9D44, 0xC6E8B8D7),
      Vector(0x2B2A2928, 0xB0A0908, 0x23222120, 0x13121110, 0x1F1E1D1C, 0x1B1A1918, 0x7060504, 0x17161514,
             0x3F3E3D3C, 0x2F2E2D2C, 0x27262524, 0x3B3A3938, 0xF0E0D0C, 0x33323130, 0x37363534, 0x3020100));
  }

  function Text(): (t: seq<byte>)
    ensures |t| == 64
  {
    seq(64, i requires 0 <= i < 64 => i as byte)
  }

  function Digest(): (d: seq<byte>)
    ensures |d| == 32
  {
    [0x56, 0xF3, 0x4E, 0x8B, 0x96, 0x55, 0x7E, 0x90, 0xC1, 0xF2, 0x4B, 0x52, 0xD0, 0xC8, 0x9D, 0x51,
     0x08, 0x6A, 0xCF, 0x1B, 0x00, 0xF6, 0x34, 0xCF, 0x1D, 0xDE, 0x92, 0x33, 0xB8, 0xEA, 0xAA, 0x3E]
  }

  function Final(): Eight { [0x8B4EF356, 0x907E5596, 0x524BF2C1, 0x519DC8D0, 0x1BCF6A08, 0xCF34F600, 0x3392DE1D,
          0x3EAAEAB8] }

  lemma TextWord(i: nat)
    requires i < 16
    ensures Load32(Padded(Text()), 4*i) as int == 0x0302_0100 + 0x0404_0404*i
  {
    assert Padded(Text()) == Text();
  }

  lemma BlockWord(i: nat)
    requires i < 16
    ensures Value(Nth(Block(), i)) as int == 0x0302_0100 + 0x0404_0404*i
  {
    hide Value;
    if i == 0 { ValueHex(0x3020100); }
    if i == 1 { ValueHex(0x7060504); }
    if i == 2 { ValueHex(0xB0A0908); }
    if i == 3 { ValueHex(0xF0E0D0C); }
    if i == 4 { ValueHex(0x13121110); }
    if i == 5 { ValueHex(0x17161514); }
    if i == 6 { ValueHex(0x1B1A1918); }
    if i == 7 { ValueHex(0x1F1E1D1C); }
    if i == 8 { ValueHex(0x23222120); }
    if i == 9 { ValueHex(0x27262524); }
    if i == 10 { ValueHex(0x2B2A2928); }
    if i == 11 { ValueHex(0x2F2E2D2C); }
    if i == 12 { ValueHex(0x33323130); }
    if i == 13 { ValueHex(0x37363534); }
    if i == 14 { ValueHex(0x3B3A3938); }
    if i == 15 { ValueHex(0x3F3E3D3C); }
  }

  lemma TextWords()
    ensures Message(Load(Padded(Text())))
  {
    hide Value, Nth, Block, Text, Padded, Load32;
    var w := Load(Padded(Text()));
    forall i | 0 <= i < 16
      ensures w[i] == Value(Nth(Block(), i))
    {
      TextWord(i);
      BlockWord(i);
    }
  }

  lemma Start()
    ensures Reached(Load(Padded(Text())), Setup(Param(32, 0), 64, 0, 0xFFFF_FFFF, 0), 0,
      Vector(0x6B08E647, 0xBB67AE85, 0x3C6EF372, 0xA54FF53A, 0x510E527F, 0x9B05688C, 0x1F83D9AB, 0x5BE0CD19,
             0x6A09E667, 0xBB67AE85, 0x3C6EF372, 0xA54FF53A, 0x510E523F, 0x9B05688C, 0xE07C2654, 0x5BE0CD19))
  {
    hide Value, Load, Setup, Flat, RowsOf, Param;
    ValueHex(0x40);
    SetupValue(Param(32, 0), 0x40,
      Vector(0x6B08E647, 0xBB67AE85, 0x3C6EF372, 0xA54FF53A, 0x510E527F, 0x9B05688C, 0x1F83D9AB, 0x5BE0CD19,
             0x6A09E667, 0xBB67AE85, 0x3C6EF372, 0xA54FF53A, 0x510E523F, 0x9B05688C, 0xE07C2654, 0x5BE0CD19));
  }

  lemma Compression()
    ensures Compressed(Param(32, 0), Load(Padded(Text())), 64, 0, 0xFFFF_FFFF, 0) == Final()
  {
    var w, start := Load(Padded(Text())), Setup(Param(32, 0), 64, 0, 0xFFFF_FFFF, 0);
    hide Value, Load, Setup, Flat, RowsOf, Param, Message;
    TextWords();
    Start();
    Rounds1(w, start);
    Rounds2(w, start);
    Rounds3(w, start);
    Rounds4(w, start);
    Rounds5(w, start);
    Folded();
  }

  lemma Folds()
    ensures FoldAt(0x6B08E647, 0x52CE3F4F, 0xB2882A5E) == Value(0x8B4EF356)
    ensures FoldAt(0xBB67AE85, 0x1DCD057, 0x2AC52B44) == Value(0x907E5596)
    ensures FoldAt(0x3C6EF372, 0x7143AC5D, 0x1F66ADEE) == Value(0x524BF2C1)
    ensures FoldAt(0xA54FF53A, 0xAA91070D, 0x5E433AE7) == Value(0x519DC8D0)
    ensures FoldAt(0x510E527F, 0xC0C4A8C8, 0x8A0590BF) == Value(0x1BCF6A08)
    ensures FoldAt(0x9B05688C, 0x8F6938EC, 0xDB58A660) == Value(0xCF34F600)
    ensures FoldAt(0x1F83D9AB, 0xCE79480D, 0xE2684FBB) == Value(0x3392DE1D)
    ensures FoldAt(0x5BE0CD19, 0x4C1373B9, 0x29595418) == Value(0x3EAAEAB8)
  {
    hide Value, FoldAt;
    FoldIs(0x6B08E647, 0x52CE3F4F, 0xB2882A5E, 0x8B4EF356);
    FoldIs(0xBB67AE85, 0x1DCD057, 0x2AC52B44, 0x907E5596);
    FoldIs(0x3C6EF372, 0x7143AC5D, 0x1F66ADEE, 0x524BF2C1);
    FoldIs(0xA54FF53A, 0xAA91070D, 0x5E433AE7, 0x519DC8D0);
    FoldIs(0x510E527F, 0xC0C4A8C8, 0x8A0590BF, 0x1BCF6A08);
    FoldIs(0x9B05688C, 0x8F6938EC, 0xDB58A660, 0xCF34F600);
    FoldIs(0x1F83D9AB, 0xCE79480D, 0xE2684FBB, 0x3392DE1D);
    FoldIs(0x5BE0CD19, 0x4C1373B9, 0x29595418, 0x3EAAEAB8);
  }

  lemma FinalValues()
    ensures Final() == [Value(0x8B4EF356), Value(0x907E5596), Value(0x524BF2C1), Value(0x519DC8D0),
                        Value(0x1BCF6A08), Value(0xCF34F600), Value(0x3392DE1D), Value(0x3EAAEAB8)]
  {
    hide Value;
    ValueHex(0x8B4EF356);
    ValueHex(0x907E5596);
    ValueHex(0x524BF2C1);
    ValueHex(0x519DC8D0);
    ValueHex(0x1BCF6A08);
    ValueHex(0xCF34F600);
    ValueHex(0x3392DE1D);
    ValueHex(0x3EAAEAB8);
  }

  lemma Folded()
    ensures Fold(Param(32, 0), Flat(RowsOf(
      Vector(0x52CE3F4F, 0x1DCD057, 0x7143AC5D, 0xAA91070D, 0xC0C4A8C8, 0x8F6938EC, 0xCE79480D, 0x4C1373B9,
             0xB2882A5E, 0x2AC52B44, 0x1F66ADEE, 0x5E433AE7, 0x8A0590BF, 0xDB58A660, 0xE2684FBB, 0x29595418))))
               == Final()
  {
    var u :=
      Vector(0x6B08E647, 0xBB67AE85, 0x3C6EF372, 0xA54FF53A, 0x510E527F, 0x9B05688C, 0x1F83D9AB, 0x5BE0CD19,
             0x6A09E667, 0xBB67AE85, 0x3C6EF372, 0xA54FF53A, 0x510E523F, 0x9B05688C, 0xE07C2654, 0x5BE0CD19);
    var v :=
      Vector(0x52CE3F4F, 0x1DCD057, 0x7143AC5D, 0xAA91070D, 0xC0C4A8C8, 0x8F6938EC, 0xCE79480D, 0x4C1373B9,
             0xB2882A5E, 0x2AC52B44, 0x1F66ADEE, 0x5E433AE7, 0x8A0590BF, 0xDB58A660, 0xE2684FBB, 0x29595418);
    hide Value, FoldAt, Fold, Flat, RowsOf, Param;
    FoldValue(Param(32, 0), u, v);
    Folds();
    FinalValues();
    var r := Fold(Param(32, 0), Flat(RowsOf(v)));
    assert r[0] == FoldAt(Nth(u, 0), Nth(v, 0), Nth(v, 8));
    assert r[1] == FoldAt(Nth(u, 1), Nth(v, 1), Nth(v, 9));
    assert r[2] == FoldAt(Nth(u, 2), Nth(v, 2), Nth(v, 10));
    assert r[3] == FoldAt(Nth(u, 3), Nth(v, 3), Nth(v, 11));
    assert r[4] == FoldAt(Nth(u, 4), Nth(v, 4), Nth(v, 12));
    assert r[5] == FoldAt(Nth(u, 5), Nth(v, 5), Nth(v, 13));
    assert r[6] == FoldAt(Nth(u, 6), Nth(v, 6), Nth(v, 14));
    assert r[7] == FoldAt(Nth(u, 7), Nth(v, 7), Nth(v, 15));
  }

  lemma DigestWords(i: nat)
    requires i < 8
    ensures Load32(Digest(), 4*i) == Final()[i]
  {}

  /** The digest, which depends on every word of the block and every entry of the schedule */
  lemma Answer()
    ensures Hash(32, [], Text()) == Digest()
  {
    hide Compressed, Param, Load, Load32, Store32All, Padded, Digest, Final, Text;
    OneBlock(Text());
    Compression();
    forall i | 0 <= i < 8
      ensures Load32(Digest(), 4*i) == Final()[i]
    {
      DigestWords(i);
    }
    StoredWords(Final(), Digest());
  }

  // Appendix B of RFC 7693: "abc"

  lemma AbcSchedule(w: Sixteen)
    requires w[0] == 0x636261 && forall i | 0 < i < 16 :: w[i] == 0
    ensures Scheduled(w, SIGMA[0], Vector(0x636261, 0, 0, 0, 0, 0, 0, 0, 0, 0, 0, 0, 0, 0, 0, 0))
  {
    hide Value;
    ValueHex(0x636261);
    ValueHex(0);
    assert SIGMA[0] == [0, 1, 2, 3, 4, 5, 6, 7, 8, 9, 10, 11, 12, 13, 14, 15];
  }

  lemma AbcStart(w: Sixteen)
    ensures Reached(w, Setup(Param(32, 0), 3, 0, 0xFFFF_FFFF, 0), 0,
      Vector(0x6B08E647, 0xBB67AE85, 0x3C6EF372, 0xA54FF53A, 0x510E527F, 0x9B05688C, 0x1F83D9AB, 0x5BE0CD19,
             0x6A09E667, 0xBB67AE85, 0x3C6EF372, 0xA54FF53A, 0x510E527C, 0x9B05688C, 0xE07C2654, 0x5BE0CD19))
  {
    hide Value, Setup, Flat, RowsOf, Param;
    ValueHex(3);
    SetupValue(Param(32, 0), 3,
      Vector(0x6B08E647, 0xBB67AE85, 0x3C6EF372, 0xA54FF53A, 0x510E527F, 0x9B05688C, 0x1F83D9AB, 0x5BE0CD19,
             0x6A09E667, 0xBB67AE85, 0x3C6EF372, 0xA54FF53A, 0x510E527C, 0x9B05688C, 0xE07C2654, 0x5BE0CD19));
  }

  /** The working vector after the first round, as the standard prints it */
  lemma Abc(w: Sixteen)
    requires w[0] == 0x636261 && forall i | 0 < i < 16 :: w[i] == 0
    ensures Reached(w, Setup(Param(32, 0), 3, 0, 0xFFFF_FFFF, 0), 1,
      Vector(0x16A3242E, 0xD7B5E238, 0xCE8CE24B, 0x927AEDE1, 0xA7B430D9, 0x93A4A14E, 0xA44E7C31, 0x41D4759B,
             0x95BF33D3, 0x9A99C181, 0x608A3A6B, 0xB666383E, 0x7A8DD50F, 0xBE378ED7, 0x353D1EE6, 0x3BB44C6B))
  {
    hide Setup, Reached, Param, Scheduled;
    AbcStart(w);
    AbcSchedule(w);
    Advance(w, Setup(Param(32, 0), 3, 0, 0xFFFF_FFFF, 0), 0,
      Vector(0x6B08E647, 0xBB67AE85, 0x3C6EF372, 0xA54FF53A, 0x510E527F, 0x9B05688C, 0x1F83D9AB, 0x5BE0CD19,
             0x6A09E667, 0xBB67AE85, 0x3C6EF372, 0xA54FF53A, 0x510E527C, 0x9B05688C, 0xE07C2654, 0x5BE0CD19),
      Vector(0x636261, 0, 0, 0, 0, 0, 0, 0, 0, 0, 0, 0, 0, 0, 0, 0));
  }
}
