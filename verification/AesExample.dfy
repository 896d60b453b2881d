/**
  AES-256 on published examples: the start of the key expansion of appendix A.3 of FIPS 197, and the key
  expansion and the cipher of appendix C.3, followed round by round.
 */
module AesExample {
  import Aes
  import opened Bits
  import opened Fips197
  import opened Tables

  /** Four words: the columns of a state, or a round key. */
  datatype Cols = Cols(c0: Word, c1: Word, c2: Word, c3: Word)

  // ---------- The S-box, byte by byte ----------

  lemma Bytes00()
    ensures Sbox(0x00) == 0x63 && Sbox(0x01) == 0x7c && Sbox(0x02) == 0x77 && Sbox(0x03) == 0x7b
    ensures Sbox(0x04) == 0xf2 && Sbox(0x05) == 0x6b && Sbox(0x06) == 0x6f && Sbox(0x07) == 0xc5
  {
    assert SboxAt(0x00) == 0x63 && SboxAt(0x01) == 0x7c && SboxAt(0x02) == 0x77 && SboxAt(0x03) == 0x7b;
    assert SboxAt(0x04) == 0xf2 && SboxAt(0x05) == 0x6b && SboxAt(0x06) == 0x6f && SboxAt(0x07) == 0xc5;
    hide SboxAt;
  }

  lemma Bytes08()
    ensures Sbox(0x08) == 0x30 && Sbox(0x09) == 0x01 && Sbox(0x0a) == 0x67 && Sbox(0x0b) == 0x2b
    ensures Sbox(0x0c) == 0xfe && Sbox(0x0d) == 0xd7 && Sbox(0x0e) == 0xab && Sbox(0x0f) == 0x76
  {
    assert SboxAt(0x08) == 0x30 && SboxAt(0x09) == 0x01 && SboxAt(0x0a) == 0x67 && SboxAt(0x0b) == 0x2b;
    assert SboxAt(0x0c) == 0xfe && SboxAt(0x0d) == 0xd7 && SboxAt(0x0e) == 0xab && SboxAt(0x0f) == 0x76;
    hide SboxAt;
  }

  lemma Bytes10()
    ensures Sbox(0x10) == 0xca && Sbox(0x11) == 0x82 && Sbox(0x12) == 0xc9 && Sbox(0x13) == 0x7d
    ensures Sbox(0x14) == 0xfa && Sbox(0x15) == 0x59 && Sbox(0x16) == 0x47 && Sbox(0x17) == 0xf0
  {
    assert SboxAt(0x10) == 0xca && SboxAt(0x11) == 0x82 && SboxAt(0x12) == 0xc9 && SboxAt(0x13) == 0x7d;
    assert SboxAt(0x14) == 0xfa && SboxAt(0x15) == 0x59 && SboxAt(0x16) == 0x47 && SboxAt(0x17) == 0xf0;
    hide SboxAt;
  }

  lemma Bytes18()
    ensures Sbox(0x18) == 0xad && Sbox(0x19) == 0xd4 && Sbox(0x1a) == 0xa2 && Sbox(0x1b) == 0xaf
    ensures Sbox(0x1c) == 0x9c && Sbox(0x1d) == 0xa4 && Sbox(0x1e) == 0x72 && Sbox(0x1f) == 0xc0
  {
    assert SboxAt(0x18) == 0xad && SboxAt(0x19) == 0xd4 && SboxAt(0x1a) == 0xa2 && SboxAt(0x1b) == 0xaf;
    assert SboxAt(0x1c) == 0x9c && SboxAt(0x1d) == 0xa4 && SboxAt(0x1e) == 0x72 && SboxAt(0x1f) == 0xc0;
    hide SboxAt;
  }

  lemma Bytes20()
    ensures Sbox(0x20) == 0xb7 && Sbox(0x21) == 0xfd && Sbox(0x22) == 0x93 && Sbox(0x23) == 0x26
    ensures Sbox(0x24) == 0x36 && Sbox(0x25) == 0x3f && Sbox(0x26) == 0xf7 && Sbox(0x27) == 0xcc
  {
    assert SboxAt(0x20) == 0xb7 && SboxAt(0x21) == 0xfd && SboxAt(0x22) == 0x93 && SboxAt(0x23) == 0x26;
    assert SboxAt(0x24) == 0x36 && SboxAt(0x25) == 0x3f && SboxAt(0x26) == 0xf7 && SboxAt(0x27) == 0xcc;
    hide SboxAt;
  }

  lemma Bytes28()
    ensures Sbox(0x28) == 0x34 && Sbox(0x29) == 0xa5 && Sbox(0x2a) == 0xe5 && Sbox(0x2b) == 0xf1
    ensures Sbox(0x2c) == 0x71 && Sbox(0x2d) == 0xd8 && Sbox(0x2e) == 0x31 && Sbox(0x2f) == 0x15
  {
    assert SboxAt(0x28) == 0x34 && SboxAt(0x29) == 0xa5 && SboxAt(0x2a) == 0xe5 && SboxAt(0x2b) == 0xf1;
    assert SboxAt(0x2c) == 0x71 && SboxAt(0x2d) == 0xd8 && SboxAt(0x2e) == 0x31 && SboxAt(0x2f) == 0x15;
    hide SboxAt;
  }

  lemma Bytes30()
    ensures Sbox(0x30) == 0x04 && Sbox(0x31) == 0xc7 && Sbox(0x32) == 0x23 && Sbox(0x33) == 0xc3
    ensures Sbox(0x34) == 0x18 && Sbox(0x35) == 0x96 && Sbox(0x36) == 0x05 && Sbox(0x37) == 0x9a
  {
    assert SboxAt(0x30) == 0x04 && SboxAt(0x31) == 0xc7 && SboxAt(0x32) == 0x23 && SboxAt(0x33) == 0xc3;
    assert SboxAt(0x34) == 0x18 && SboxAt(0x35) == 0x96 && SboxAt(0x36) == 0x05 && SboxAt(0x37) == 0x9a;
    hide SboxAt;
  }

  lemma Bytes38()
    ensures Sbox(0x38) == 0x07 && Sbox(0x39) == 0x12 && Sbox(0x3a) == 0x80 && Sbox(0x3b) == 0xe2
    ensures Sbox(0x3c) == 0xeb && Sbox(0x3d) == 0x27 && Sbox(0x3e) == 0xb2 && Sbox(0x3f) == 0x75
  {
    assert SboxAt(0x38) == 0x07 && SboxAt(0x39) == 0x12 && SboxAt(0x3a) == 0x80 && SboxAt(0x3b) == 0xe2;
    assert SboxAt(0x3c) == 0xeb && SboxAt(0x3d) == 0x27 && SboxAt(0x3e) == 0xb2 && SboxAt(0x3f) == 0x75;
    hide SboxAt;
  }

  lemma Bytes40()
    ensures Sbox(0x40) == 0x09 && Sbox(0x41) == 0x83 && Sbox(0x42) == 0x2c && Sbox(0x43) == 0x1a
    ensures Sbox(0x44) == 0x1b && Sbox(0x45) == 0x6e && Sbox(0x46) == 0x5a && Sbox(0x47) == 0xa0
  {
    assert SboxAt(0x40) == 0x09 && SboxAt(0x41) == 0x83 && SboxAt(0x42) == 0x2c && SboxAt(0x43) == 0x1a;
    assert SboxAt(0x44) == 0x1b && SboxAt(0x45) == 0x6e && SboxAt(0x46) == 0x5a && SboxAt(0x47) == 0xa0;
    hide SboxAt;
  }

  lemma Bytes48()
    ensures Sbox(0x48) == 0x52 && Sbox(0x49) == 0x3b && Sbox(0x4a) == 0xd6 && Sbox(0x4b) == 0xb3
    ensures Sbox(0x4c) == 0x29 && Sbox(0x4d) == 0xe3 && Sbox(0x4e) == 0x2f && Sbox(0x4f) == 0x84
  {
    assert SboxAt(0x48) == 0x52 && SboxAt(0x49) == 0x3b && SboxAt(0x4a) == 0xd6 && SboxAt(0x4b) == 0xb3;
    assert SboxAt(0x4c) == 0x29 && SboxAt(0x4d) == 0xe3 && SboxAt(0x4e) == 0x2f && SboxAt(0x4f) == 0x84;
    hide SboxAt;
  }

  lemma Bytes50()
    ensures Sbox(0x50) == 0x53 && Sbox(0x51) == 0xd1 && Sbox(0x52) == 0x00 && Sbox(0x53) == 0xed
    ensures Sbox(0x54) == 0x20 && Sbox(0x55) == 0xfc && Sbox(0x56) == 0xb1 && Sbox(0x57) == 0x5b
  {
    assert SboxAt(0x50) == 0x53 && SboxAt(0x51) == 0xd1 && SboxAt(0x52) == 0x00 && SboxAt(0x53) == 0xed;
    assert SboxAt(0x54) == 0x20 && SboxAt(0x55) == 0xfc && SboxAt(0x56) == 0xb1 && SboxAt(0x57) == 0x5b;
    hide SboxAt;
  }

  lemma Bytes58()
    ensures Sbox(0x58) == 0x6a && Sbox(0x59) == 0xcb && Sbox(0x5a) == 0xbe && Sbox(0x5b) == 0x39
    ensures Sbox(0x5c) == 0x4a && Sbox(0x5d) == 0x4c && Sbox(0x5e) == 0x58 && Sbox(0x5f) == 0xcf
  {
    assert SboxAt(0x58) == 0x6a && SboxAt(0x59) == 0xcb && SboxAt(0x5a) == 0xbe && SboxAt(0x5b) == 0x39;
    assert SboxAt(0x5c) == 0x4a && SboxAt(0x5d) == 0x4c && SboxAt(0x5e) == 0x58 && SboxAt(0x5f) == 0xcf;
    hide SboxAt;
  }

  lemma Bytes60()
    ensures Sbox(0x60) == 0xd0 && Sbox(0x61) == 0xef && Sbox(0x62) == 0xaa && Sbox(0x63) == 0xfb
    ensures Sbox(0x64) == 0x43 && Sbox(0x65) == 0x4d && Sbox(0x66) == 0x33 && Sbox(0x67) == 0x85
  {
    assert SboxAt(0x60) == 0xd0 && SboxAt(0x61) == 0xef && SboxAt(0x62) == 0xaa && SboxAt(0x63) == 0xfb;
    assert SboxAt(0x64) == 0x43 && SboxAt(0x65) == 0x4d && SboxAt(0x66) == 0x33 && SboxAt(0x67) == 0x85;
    hide SboxAt;
  }

  lemma Bytes68()
    ensures Sbox(0x68) == 0x45 && Sbox(0x69) == 0xf9 && Sbox(0x6a) == 0x02 && Sbox(0x6b) == 0x7f
    ensures Sbox(0x6c) == 0x50 && Sbox(0x6d) == 0x3c && Sbox(0x6e) == 0x9f && Sbox(0x6f) == 0xa8
  {
    assert SboxAt(0x68) == 0x45 && SboxAt(0x69) == 0xf9 && SboxAt(0x6a) == 0x02 && SboxAt(0x6b) == 0x7f;
    assert SboxAt(0x6c) == 0x50 && SboxAt(0x6d) == 0x3c && SboxAt(0x6e) == 0x9f && SboxAt(0x6f) == 0xa8;
    hide SboxAt;
  }

  lemma Bytes70()
    ensures Sbox(0x70) == 0x51 && Sbox(0x71) == 0xa3 && Sbox(0x72) == 0x40 && Sbox(0x73) == 0x8f
    ensures Sbox(0x74) == 0x92 && Sbox(0x75) == 0x9d && Sbox(0x76) == 0x38 && Sbox(0x77) == 0xf5
  {
    assert SboxAt(0x70) == 0x51 && SboxAt(0x71) == 0xa3 && SboxAt(0x72) == 0x40 && SboxAt(0x73) == 0x8f;
    assert SboxAt(0x74) == 0x92 && SboxAt(0x75) == 0x9d && SboxAt(0x76) == 0x38 && SboxAt(0x77) == 0xf5;
    hide SboxAt;
  }

  lemma Bytes78()
    ensures Sbox(0x78) == 0xbc && Sbox(0x79) == 0xb6 && Sbox(0x7a) == 0xda && Sbox(0x7b) == 0x21
    ensures Sbox(0x7c) == 0x10 && Sbox(0x7d) == 0xff && Sbox(0x7e) == 0xf3 && Sbox(0x7f) == 0xd2
  {
    assert SboxAt(0x78) == 0xbc && SboxAt(0x79) == 0xb6 && SboxAt(0x7a) == 0xda && SboxAt(0x7b) == 0x21;
    assert SboxAt(0x7c) == 0x10 && SboxAt(0x7d) == 0xff && SboxAt(0x7e) == 0xf3 && SboxAt(0x7f) == 0xd2;
    hide SboxAt;
  }

  lemma Bytes80()
    ensures Sbox(0x80) == 0xcd && Sbox(0x81) == 0x0c && Sbox(0x82) == 0x13 && Sbox(0x83) == 0xec
    ensures Sbox(0x84) == 0x5f && Sbox(0x85) == 0x97 && Sbox(0x86) == 0x44 && Sbox(0x87) == 0x17
  {
    assert SboxAt(0x80) == 0xcd && SboxAt(0x81) == 0x0c && SboxAt(0x82) == 0x13 && SboxAt(0x83) == 0xec;
    assert SboxAt(0x84) == 0x5f && SboxAt(0x85) == 0x97 && SboxAt(0x86) == 0x44 && SboxAt(0x87) == 0x17;
    hide SboxAt;
  }

  lemma Bytes88()
    ensures Sbox(0x88) == 0xc4 && Sbox(0x89) == 0xa7 && Sbox(0x8a) == 0x7e && Sbox(0x8b) == 0x3d
    ensures Sbox(0x8c) == 0x64 && Sbox(0x8d) == 0x5d && Sbox(0x8e) == 0x19 && Sbox(0x8f) == 0x73
  {
    assert SboxAt(0x88) == 0xc4 && SboxAt(0x89) == 0xa7 && SboxAt(0x8a) == 0x7e && SboxAt(0x8b) == 0x3d;
    assert SboxAt(0x8c) == 0x64 && SboxAt(0x8d) == 0x5d && SboxAt(0x8e) == 0x19 && SboxAt(0x8f) == 0x73;
    hide SboxAt;
  }

  lemma Bytes90()
    ensures Sbox(0x90) == 0x60 && Sbox(0x91) == 0x81 && Sbox(0x92) == 0x4f && Sbox(0x93) == 0xdc
    ensures Sbox(0x94) == 0x22 && Sbox(0x95) == 0x2a && Sbox(0x96) == 0x90 && Sbox(0x97) == 0x88
  {
    assert SboxAt(0x90) == 0x60 && SboxAt(0x91) == 0x81 && SboxAt(0x92) == 0x4f && SboxAt(0x93) == 0xdc;
    assert SboxAt(0x94) == 0x22 && SboxAt(0x95) == 0x2a && SboxAt(0x96) == 0x90 && SboxAt(0x97) == 0x88;
    hide SboxAt;
  }

  lemma Bytes98()
    ensures Sbox(0x98) == 0x46 && Sbox(0x99) == 0xee && Sbox(0x9a) == 0xb8 && Sbox(0x9b) == 0x14
    ensures Sbox(0x9c) == 0xde && Sbox(0x9d) == 0x5e && Sbox(0x9e) == 0x0b && Sbox(0x9f) == 0xdb
  {
    assert SboxAt(0x98) == 0x46 && SboxAt(0x99) == 0xee && SboxAt(0x9a) == 0xb8 && SboxAt(0x9b) == 0x14;
    assert SboxAt(0x9c) == 0xde && SboxAt(0x9d) == 0x5e && SboxAt(0x9e) == 0x0b && SboxAt(0x9f) == 0xdb;
    hide SboxAt;
  }

  lemma Bytesa0()
    ensures Sbox(0xa0) == 0xe0 && Sbox(0xa1) == 0x32 && Sbox(0xa2) == 0x3a && Sbox(0xa3) == 0x0a
    ensures Sbox(0xa4) == 0x49 && Sbox(0xa5) == 0x06 && Sbox(0xa6) == 0x24 && Sbox(0xa7) == 0x5c
  {
    assert SboxAt(0xa0) == 0xe0 && SboxAt(0xa1) == 0x32 && SboxAt(0xa2) == 0x3a && SboxAt(0xa3) == 0x0a;
    assert SboxAt(0xa4) == 0x49 && SboxAt(0xa5) == 0x06 && SboxAt(0xa6) == 0x24 && SboxAt(0xa7) == 0x5c;
    hide SboxAt;
  }

  lemma Bytesa8()
    ensures Sbox(0xa8) == 0xc2 && Sbox(0xa9) == 0xd3 && Sbox(0xaa) == 0xac && Sbox(0xab) == 0x62
    ensures Sbox(0xac) == 0x91 && Sbox(0xad) == 0x95 && Sbox(0xae) == 0xe4 && Sbox(0xaf) == 0x79
  {
    assert SboxAt(0xa8) == 0xc2 && SboxAt(0xa9) == 0xd3 && SboxAt(0xaa) == 0xac && SboxAt(0xab) == 0x62;
    assert SboxAt(0xac) == 0x91 && SboxAt(0xad) == 0x95 && SboxAt(0xae) == 0xe4 && SboxAt(0xaf) == 0x79;
    hide SboxAt;
  }

  lemma Bytesb0()
    ensures Sbox(0xb0) == 0xe7 && Sbox(0xb1) == 0xc8 && Sbox(0xb2) == 0x37 && Sbox(0xb3) == 0x6d
    ensures Sbox(0xb4) == 0x8d && Sbox(0xb5) == 0xd5 && Sbox(0xb6) == 0x4e && Sbox(0xb7) == 0xa9
  {
    assert SboxAt(0xb0) == 0xe7 && SboxAt(0xb1) == 0xc8 && SboxAt(0xb2) == 0x37 && SboxAt(0xb3) == 0x6d;
    assert SboxAt(0xb4) == 0x8d && SboxAt(0xb5) == 0xd5 && SboxAt(0xb6) == 0x4e && SboxAt(0xb7) == 0xa9;
    hide SboxAt;
  }

  lemma Bytesb8()
    ensures Sbox(0xb8) == 0x6c && Sbox(0xb9) == 0x56 && Sbox(0xba) == 0xf4 && Sbox(0xbb) == 0xea
    ensures Sbox(0xbc) == 0x65 && Sbox(0xbd) == 0x7a && Sbox(0xbe) == 0xae && Sbox(0xbf) == 0x08
  {
    assert SboxAt(0xb8) == 0x6c && SboxAt(0xb9) == 0x56 && SboxAt(0xba) == 0xf4 && SboxAt(0xbb) == 0xea;
    assert SboxAt(0xbc) == 0x65 && SboxAt(0xbd) == 0x7a && SboxAt(0xbe) == 0xae && SboxAt(0xbf) == 0x08;
    hide SboxAt;
  }

  lemma Bytesc0()
    ensures Sbox(0xc0) == 0xba && Sbox(0xc1) == 0x78 && Sbox(0xc2) == 0x25 && Sbox(0xc3) == 0x2e
    ensures Sbox(0xc4) == 0x1c && Sbox(0xc5) == 0xa6 && Sbox(0xc6) == 0xb4 && Sbox(0xc7) == 0xc6
  {
    assert SboxAt(0xc0) == 0xba && SboxAt(0xc1) == 0x78 && SboxAt(0xc2) == 0x25 && SboxAt(0xc3) == 0x2e;
    assert SboxAt(0xc4) == 0x1c && SboxAt(0xc5) == 0xa6 && SboxAt(0xc6) == 0xb4 && SboxAt(0xc7) == 0xc6;
    hide SboxAt;
  }

  lemma Bytesc8()
    ensures Sbox(0xc8) == 0xe8 && Sbox(0xc9) == 0xdd && Sbox(0xca) == 0x74 && Sbox(0xcb) == 0x1f
    ensures Sbox(0xcc) == 0x4b && Sbox(0xcd) == 0xbd && Sbox(0xce) == 0x8b && Sbox(0xcf) == 0x8a
  {
    assert SboxAt(0xc8) == 0xe8 && SboxAt(0xc9) == 0xdd && SboxAt(0xca) == 0x74 && SboxAt(0xcb) == 0x1f;
    assert SboxAt(0xcc) == 0x4b && SboxAt(0xcd) == 0xbd && SboxAt(0xce) == 0x8b && SboxAt(0xcf) == 0x8a;
    hide SboxAt;
  }

  lemma Bytesd0()
    ensures Sbox(0xd0) == 0x70 && Sbox(0xd1) == 0x3e && Sbox(0xd2) == 0xb5 && Sbox(0xd3) == 0x66
    ensures Sbox(0xd4) == 0x48 && Sbox(0xd5) == 0x03 && Sbox(0xd6) == 0xf6 && Sbox(0xd7) == 0x0e
  {
    assert SboxAt(0xd0) == 0x70 && SboxAt(0xd1) == 0x3e && SboxAt(0xd2) == 0xb5 && SboxAt(0xd3) == 0x66;
    assert SboxAt(0xd4) == 0x48 && SboxAt(0xd5) == 0x03 && SboxAt(0xd6) == 0xf6 && SboxAt(0xd7) == 0x0e;
    hide SboxAt;
  }

  lemma Bytesd8()
    ensures Sbox(0xd8) == 0x61 && Sbox(0xd9) == 0x35 && Sbox(0xda) == 0x57 && Sbox(0xdb) == 0xb9
    ensures Sbox(0xdc) == 0x86 && Sbox(0xdd) == 0xc1 && Sbox(0xde) == 0x1d && Sbox(0xdf) == 0x9e
  {
    assert SboxAt(0xd8) == 0x61 && SboxAt(0xd9) == 0x35 && SboxAt(0xda) == 0x57 && SboxAt(0xdb) == 0xb9;
    assert SboxAt(0xdc) == 0x86 && SboxAt(0xdd) == 0xc1 && SboxAt(0xde) == 0x1d && SboxAt(0xdf) == 0x9e;
    hide SboxAt;
  }

  lemma Bytese0()
    ensures Sbox(0xe0) == 0xe1 && Sbox(0xe1) == 0xf8 && Sbox(0xe2) == 0x98 && Sbox(0xe3) == 0x11
    ensures Sbox(0xe4) == 0x69 && Sbox(0xe5) == 0xd9 && Sbox(0xe6) == 0x8e && Sbox(0xe7) == 0x94
  {
    assert SboxAt(0xe0) == 0xe1 && SboxAt(0xe1) == 0xf8 && SboxAt(0xe2) == 0x98 && SboxAt(0xe3) == 0x11;
    assert SboxAt(0xe4) == 0x69 && SboxAt(0xe5) == 0xd9 && SboxAt(0xe6) == 0x8e && SboxAt(0xe7) == 0x94;
    hide SboxAt;
  }

  lemma Bytese8()
    ensures Sbox(0xe8) == 0x9b && Sbox(0xe9) == 0x1e && Sbox(0xea) == 0x87 && Sbox(0xeb) == 0xe9
    ensures Sbox(0xec) == 0xce && Sbox(0xed) == 0x55 && Sbox(0xee) == 0x28 && Sbox(0xef) == 0xdf
  {
    assert SboxAt(0xe8) == 0x9b && SboxAt(0xe9) == 0x1e && SboxAt(0xea) == 0x87 && SboxAt(0xeb) == 0xe9;
    assert SboxAt(0xec) == 0xce && SboxAt(0xed) == 0x55 && SboxAt(0xee) == 0x28 && SboxAt(0xef) == 0xdf;
    hide SboxAt;
  }

  lemma Bytesf0()
    ensures Sbox(0xf0) == 0x8c && Sbox(0xf1) == 0xa1 && Sbox(0xf2) == 0x89 && Sbox(0xf3) == 0x0d
    ensures Sbox(0xf4) == 0xbf && Sbox(0xf5) == 0xe6 && Sbox(0xf6) == 0x42 && Sbox(0xf7) == 0x68
  {
    assert SboxAt(0xf0) == 0x8c && SboxAt(0xf1) == 0xa1 && SboxAt(0xf2) == 0x89 && SboxAt(0xf3) == 0x0d;
    assert SboxAt(0xf4) == 0xbf && SboxAt(0xf5) == 0xe6 && SboxAt(0xf6) == 0x42 && SboxAt(0xf7) == 0x68;
    hide SboxAt;
  }

  lemma Bytesf8()
    ensures Sbox(0xf8) == 0x41 && Sbox(0xf9) == 0x99 && Sbox(0xfa) == 0x2d && Sbox(0xfb) == 0x0f
    ensures Sbox(0xfc) == 0xb0 && Sbox(0xfd) == 0x54 && Sbox(0xfe) == 0xbb && Sbox(0xff) == 0x16
  {
    assert SboxAt(0xf8) == 0x41 && SboxAt(0xf9) == 0x99 && SboxAt(0xfa) == 0x2d && SboxAt(0xfb) == 0x0f;
    assert SboxAt(0xfc) == 0xb0 && SboxAt(0xfd) == 0x54 && SboxAt(0xfe) == 0xbb && SboxAt(0xff) == 0x16;
    hide SboxAt;
  }

  // ---------- The key expansion ----------

  function RoundKey(key: Key, r: nat): Cols {
    Cols(KeyWord(key, 4 * r), KeyWord(key, 4 * r + 1), KeyWord(key, 4 * r + 2), KeyWord(key, 4 * r + 3))
  }

  /** Round key `r` from the two before it. */
  function NextKey(a: Cols, b: Cols, r: nat): Cols
    requires r >= 2
  {
    var w0 := XorWord(a.c0, ScheduleCore(b.c3, 4 * r));
    var w1 := XorWord(a.c1, ScheduleCore(w0, 4 * r + 1));
    var w2 := XorWord(a.c2, ScheduleCore(w1, 4 * r + 2));
    Cols(w0, w1, w2, XorWord(a.c3, ScheduleCore(w2, 4 * r + 3)))
  }

  lemma KeyStep(key: Key, i: nat)
    requires 8 <= i
    ensures KeyWord(key, i) == XorWord(KeyWord(key, i - 8), ScheduleCore(KeyWord(key, i - 1), i))
  {}

  lemma FirstKeys(key: Key)
    ensures RoundKey(key, 0) == Cols(WordOf(key, 0), WordOf(key, 1), WordOf(key, 2), WordOf(key, 3))
    ensures RoundKey(key, 1) == Cols(WordOf(key, 4), WordOf(key, 5), WordOf(key, 6), WordOf(key, 7))
  {}

  lemma RoundKeyStep(key: Key, r: nat)
    requires r >= 2
    ensures RoundKey(key, r) == NextKey(RoundKey(key, r - 2), RoundKey(key, r - 1), r)
  {
    hide KeyWord, XorWord, ScheduleCore;
    KeyStep(key, 4 * r);
    KeyStep(key, 4 * r + 1);
    KeyStep(key, 4 * r + 2);
    KeyStep(key, 4 * r + 3);
  }

  lemma EighthAndRest(h: nat, c: nat)
    requires c < 8
    ensures (8 * h + c) / 8 == h && (8 * h + c) % 8 == c
  {}

  lemma Phases(r: nat)
    ensures r % 2 == 0 ==> (4 * r) % 8 == 0 && (4 * r) / 8 == r / 2
                           && (4 * r + 1) % 8 == 1 && (4 * r + 2) % 8 == 2 && (4 * r + 3) % 8 == 3
    ensures r % 2 == 1 ==> (4 * r) % 8 == 4 && (4 * r + 1) % 8 == 5 && (4 * r + 2) % 8 == 6 && (4 * r + 3) % 8 == 7
  {
    var h, c := r / 2, if r % 2 == 0 then 0 else 4;
    assert 4 * r == 8 * h + c;
    EighthAndRest(h, c);
    EighthAndRest(h, c + 1);
    EighthAndRest(h, c + 2);
    EighthAndRest(h, c + 3);
  }

  lemma Core(prev: Word, i: nat)
    requires 8 <= i
    ensures i % 8 == 0 ==> ScheduleCore(prev, i) == XorWord(SubWord(RotWord(prev)), Word(Rcon(i / 8), 0, 0, 0))
    ensures i % 8 == 4 ==> ScheduleCore(prev, i) == SubWord(prev)
    ensures i % 8 != 0 && i % 8 != 4 ==> ScheduleCore(prev, i) == prev
  {
    hide XorWord, SubWord, RotWord, Rcon;
  }

  /** A round key whose first word is rotated, substituted and added to a round constant. */
  lemma RotatedKey(a: Cols, b: Cols, r: nat, rcon: bv8, s: Word)
    requires r >= 2 && r % 2 == 0
    ensures var w0 := XorWord(a.c0, XorWord(s, Word(rcon, 0, 0, 0)));
            var w1 := XorWord(a.c1, w0);
            var w2 := XorWord(a.c2, w1);
            rcon == Rcon(r / 2) && s == SubWord(RotWord(b.c3)) ==>
              NextKey(a, b, r) == Cols(w0, w1, w2, XorWord(a.c3, w2))
  {
    hide XorWord, SubWord, RotWord, Rcon, ScheduleCore;
    Phases(r);
    var w0 := XorWord(a.c0, ScheduleCore(b.c3, 4 * r));
    var w1 := XorWord(a.c1, w0);
    Core(b.c3, 4 * r);
    Core(w0, 4 * r + 1);
    Core(w1, 4 * r + 2);
    Core(XorWord(a.c2, w1), 4 * r + 3);
  }

  /** A round key whose first word is only substituted. */
  lemma SubstitutedKey(a: Cols, b: Cols, r: nat, s: Word)
    requires r >= 2 && r % 2 == 1
    ensures var w0 := XorWord(a.c0, s);
            var w1 := XorWord(a.c1, w0);
            var w2 := XorWord(a.c2, w1);
            s == SubWord(b.c3) ==> NextKey(a, b, r) == Cols(w0, w1, w2, XorWord(a.c3, w2))
  {
    hide XorWord, SubWord, RotWord, Rcon, ScheduleCore;
    Phases(r);
    var w0 := XorWord(a.c0, ScheduleCore(b.c3, 4 * r));
    var w1 := XorWord(a.c1, w0);
    Core(b.c3, 4 * r);
    Core(w0, 4 * r + 1);
    Core(w1, 4 * r + 2);
    Core(XorWord(a.c2, w1), 4 * r + 3);
  }

  lemma Powers()
    ensures Rcon(1) == 0x01 && Rcon(2) == 0x02 && Rcon(3) == 0x04 && Rcon(4) == 0x08
    ensures Rcon(5) == 0x10 && Rcon(6) == 0x20 && Rcon(7) == 0x40
  {
    assert Rcon(3) == 0x04;
    assert Rcon(5) == 0x10;
  }

  const A3: Key := [0x60, 0x3d, 0xeb, 0x10, 0x15, 0xca, 0x71, 0xbe, 0x2b, 0x73, 0xae, 0xf0, 0x85, 0x7d, 0x77, 0x81,
                  0x1f, 0x35, 0x2c, 0x07, 0x3b, 0x61, 0x08, 0xd7, 0x2d, 0x98, 0x10, 0xa3, 0x09, 0x14, 0xdf, 0xf4]

  lemma A3Half0()
    ensures Cols(WordOf(A3, 0), WordOf(A3, 1), WordOf(A3, 2), WordOf(A3, 3))
         == Cols(Word(0x60, 0x3d, 0xeb, 0x10), Word(0x15, 0xca, 0x71, 0xbe),
                 Word(0x2b, 0x73, 0xae, 0xf0), Word(0x85, 0x7d, 0x77, 0x81))
  {}

  lemma A3Half1()
    ensures Cols(WordOf(A3, 4), WordOf(A3, 5), WordOf(A3, 6), WordOf(A3, 7))
         == Cols(Word(0x1f, 0x35, 0x2c, 0x07), Word(0x3b, 0x61, 0x08, 0xd7),
                 Word(0x2d, 0x98, 0x10, 0xa3), Word(0x09, 0x14, 0xdf, 0xf4))
  {}

  lemma A3Start()
    ensures RoundKey(A3, 0) == Cols(Word(0x60, 0x3d, 0xeb, 0x10), Word(0x15, 0xca, 0x71, 0xbe),
                                   Word(0x2b, 0x73, 0xae, 0xf0), Word(0x85, 0x7d, 0x77, 0x81))
    ensures RoundKey(A3, 1) == Cols(Word(0x1f, 0x35, 0x2c, 0x07), Word(0x3b, 0x61, 0x08, 0xd7),
                                   Word(0x2d, 0x98, 0x10, 0xa3), Word(0x09, 0x14, 0xdf, 0xf4))
  {
    hide KeyWord, WordOf, A3;
    FirstKeys(A3);
    A3Half0();
    A3Half1();
  }

  lemma A3Key2()
    ensures NextKey(Cols(Word(0x60, 0x3d, 0xeb, 0x10), Word(0x15, 0xca, 0x71, 0xbe),
                         Word(0x2b, 0x73, 0xae, 0xf0), Word(0x85, 0x7d, 0x77, 0x81)),
                    Cols(Word(0x1f, 0x35, 0x2c, 0x07), Word(0x3b, 0x61, 0x08, 0xd7),
                         Word(0x2d, 0x98, 0x10, 0xa3), Word(0x09, 0x14, 0xdf, 0xf4)), 2)
         == Cols(Word(0x9b, 0xa3, 0x54, 0x11), Word(0x8e, 0x69, 0x25, 0xaf),
                 Word(0xa5, 0x1a, 0x8b, 0x5f), Word(0x20, 0x67, 0xfc, 0xde))
  {
    hide NextKey, Sbox;
    Bytes08(); Bytes10(); Bytesd8(); Bytesf0();
    Powers();
    var a := Cols(Word(0x60, 0x3d, 0xeb, 0x10), Word(0x15, 0xca, 0x71, 0xbe),
                  Word(0x2b, 0x73, 0xae, 0xf0), Word(0x85, 0x7d, 0x77, 0x81));
    var b := Cols(Word(0x1f, 0x35, 0x2c, 0x07), Word(0x3b, 0x61, 0x08, 0xd7),
                  Word(0x2d, 0x98, 0x10, 0xa3), Word(0x09, 0x14, 0xdf, 0xf4));
    RotatedKey(a, b, 2, 0x01, Word(0xfa, 0x9e, 0xbf, 0x01));
  }

  lemma A3Key3()
    ensures NextKey(Cols(Word(0x1f, 0x35, 0x2c, 0x07), Word(0x3b, 0x61, 0x08, 0xd7),
                         Word(0x2d, 0x98, 0x10, 0xa3), Word(0x09, 0x14, 0xdf, 0xf4)),
                    Cols(Word(0x9b, 0xa3, 0x54, 0x11), Word(0x8e, 0x69, 0x25, 0xaf),
                         Word(0xa5, 0x1a, 0x8b, 0x5f), Word(0x20, 0x67, 0xfc, 0xde)), 3)
         == Cols(Word(0xa8, 0xb0, 0x9c, 0x1a), Word(0x93, 0xd1, 0x94, 0xcd),
                 Word(0xbe, 0x49, 0x84, 0x6e), Word(0xb7, 0x5d, 0x5b, 0x9a))
  {
    hide NextKey, Sbox;
    Bytes20(); Bytes60(); Bytesd8(); Bytesf8();
    var a := Cols(Word(0x1f, 0x35, 0x2c, 0x07), Word(0x3b, 0x61, 0x08, 0xd7),
                  Word(0x2d, 0x98, 0x10, 0xa3), Word(0x09, 0x14, 0xdf, 0xf4));
    var b := Cols(Word(0x9b, 0xa3, 0x54, 0x11), Word(0x8e, 0x69, 0x25, 0xaf),
                  Word(0xa5, 0x1a, 0x8b, 0x5f), Word(0x20, 0x67, 0xfc, 0xde));
    SubstitutedKey(a, b, 3, Word(0xb7, 0x85, 0xb0, 0x1d));
  }

  const C3: Key := [0x00, 0x01, 0x02, 0x03, 0x04, 0x05, 0x06, 0x07, 0x08, 0x09, 0x0a, 0x0b, 0x0c, 0x0d, 0x0e, 0x0f,
                  0x10, 0x11, 0x12, 0x13, 0x14, 0x15, 0x16, 0x17, 0x18, 0x19, 0x1a, 0x1b, 0x1c, 0x1d, 0x1e, 0x1f]

  lemma C3Half0()
    ensures Cols(WordOf(C3, 0), WordOf(C3, 1), WordOf(C3, 2), WordOf(C3, 3))
         == Cols(Word(0x00, 0x01, 0x02, 0x03), Word(0x04, 0x05, 0x06, 0x07),
                 Word(0x08, 0x09, 0x0a, 0x0b), Word(0x0c, 0x0d, 0x0e, 0x0f))
  {}

  lemma C3Half1()
    ensures Cols(WordOf(C3, 4), WordOf(C3, 5), WordOf(C3, 6), WordOf(C3, 7))
         == Cols(Word(0x10, 0x11, 0x12, 0x13), Word(0x14, 0x15, 0x16, 0x17),
                 Word(0x18, 0x19, 0x1a, 0x1b), Word(0x1c, 0x1d, 0x1e, 0x1f))
  {}

  lemma C3Start()
    ensures RoundKey(C3, 0) == Cols(Word(0x00, 0x01, 0x02, 0x03), Word(0x04, 0x05, 0x06, 0x07),
                                   Word(0x08, 0x09, 0x0a, 0x0b), Word(0x0c, 0x0d, 0x0e, 0x0f))
    ensures RoundKey(C3, 1) == Cols(Word(0x10, 0x11, 0x12, 0x13), Word(0x14, 0x15, 0x16, 0x17),
                                   Word(0x18, 0x19, 0x1a, 0x1b), Word(0x1c, 0x1d, 0x1e, 0x1f))
  {
    hide KeyWord, WordOf, C3;
    FirstKeys(C3);
    C3Half0();
    C3Half1();
  }

  /** Words 8 and 12 of appendix A.3: the first of each kind of substitution. */
  lemma ExpansionExample()
    ensures KeyWord(A3, 8) == Word(0x9b, 0xa3, 0x54, 0x11) && KeyWord(A3, 12) == Word(0xa8, 0xb0, 0x9c, 0x1a)
  {
    hide NextKey, KeyWord;
    A3Start();
    RoundKeyStep(A3, 2);
    A3Key2();
    RoundKeyStep(A3, 3);
    A3Key3();
  }

  // ---------- The rounds ----------

  function ColsOf(s: Block): Cols {
    Cols(WordOf(s, 0), WordOf(s, 1), WordOf(s, 2), WordOf(s, 3))
  }

  function KeyOf(w: RoundKeys, r: nat): Cols
    requires r <= ROUNDS
  {
    Cols(WordOf(w, 4 * r), WordOf(w, 4 * r + 1), WordOf(w, 4 * r + 2), WordOf(w, 4 * r + 3))
  }

  lemma ExpandedWord(key: Key, i: nat)
    requires i < 60
    ensures WordOf(ExpandKey(key), i) == KeyWord(key, i)
  {
    hide KeyWord, ExpandKey;
    ExpandedByte(key, i, 0);
    ExpandedByte(key, i, 1);
    ExpandedByte(key, i, 2);
    ExpandedByte(key, i, 3);
  }

  lemma ExpandedByte(key: Key, i: nat, j: nat)
    requires i < 60 && j < 4
    ensures ExpandKey(key)[4 * i + j] == ByteOf(KeyWord(key, i), j)
  {
    hide KeyWord, ByteOf;
    FourthAndRest(i, j);
  }

  lemma FourthAndRest(i: nat, j: nat)
    requires j < 4
    ensures (4 * i + j) / 4 == i && (4 * i + j) % 4 == j
  {}

  lemma ExpandedKey(key: Key, r: nat)
    requires r <= ROUNDS
    ensures KeyOf(ExpandKey(key), r) == RoundKey(key, r)
  {
    hide KeyWord, ExpandKey, WordOf;
    ExpandedWord(key, 4 * r);
    ExpandedWord(key, 4 * r + 1);
    ExpandedWord(key, 4 * r + 2);
    ExpandedWord(key, 4 * r + 3);
  }

  /** SubBytes and ShiftRows on columns: row `i` of column `c` comes from column c + i. */
  function Shifted(s: Cols): Cols {
    Cols(SubWord(Word(s.c0.b0, s.c1.b1, s.c2.b2, s.c3.b3)), SubWord(Word(s.c1.b0, s.c2.b1, s.c3.b2, s.c0.b3)),
         SubWord(Word(s.c2.b0, s.c3.b1, s.c0.b2, s.c1.b3)), SubWord(Word(s.c3.b0, s.c0.b1, s.c1.b2, s.c2.b3)))
  }

  /** MixColumns on one column, with the products written out. */
  function Mixed(x: Word): Word {
    Word(MixedByte(x.b0, x.b1, x.b2, x.b3), MixedByte(x.b1, x.b2, x.b3, x.b0),
         MixedByte(x.b2, x.b3, x.b0, x.b1), MixedByte(x.b3, x.b0, x.b1, x.b2))
  }

  function MixedByte(a: bv8, b: bv8, c: bv8, d: bv8): bv8 {
    Xor4(XTime(a), Xor(b, XTime(b)), c, d)
  }

  function MixedAll(s: Cols): Cols {
    Cols(Mixed(s.c0), Mixed(s.c1), Mixed(s.c2), Mixed(s.c3))
  }

  function Added(s: Cols, k: Cols): Cols {
    Cols(XorWord(s.c0, k.c0), XorWord(s.c1, k.c1), XorWord(s.c2, k.c2), XorWord(s.c3, k.c3))
  }

  lemma MixRowForm(a: bv8, b: bv8, c: bv8, d: bv8)
    ensures MixRow(a, b, c, d) == MixedByte(a, b, c, d)
  {
    hide Times, Xor, XTime, Xor4;
    Aes.TimesTwoThree(a);
    Aes.TimesTwoThree(b);
  }

  lemma ShiftedCols(s: Block)
    ensures ColsOf(ShiftRows(SubBytes(s))) == Shifted(ColsOf(s))
  {
    hide Sbox, ShiftRows;
    Aes.ShiftRowsOrder(SubBytes(s));
  }

  lemma MixedCol(s: Block, i: nat)
    requires i < 4
    ensures WordOf(MixColumns(s), i) == Mixed(WordOf(s, i))
  {
    hide MixedByte, MixRow, MixColumns;
    var o := 4 * i;
    Aes.MixedColumn(s, i);
    MixRowForm(s[o], s[o + 1], s[o + 2], s[o + 3]);
    MixRowForm(s[o + 1], s[o + 2], s[o + 3], s[o]);
    MixRowForm(s[o + 2], s[o + 3], s[o], s[o + 1]);
    MixRowForm(s[o + 3], s[o], s[o + 1], s[o + 2]);
  }

  lemma AddedCols(s: Block, w: RoundKeys, r: nat)
    requires r <= ROUNDS
    ensures ColsOf(AddRoundKey(s, w, r)) == Added(ColsOf(s), KeyOf(w, r))
  {
    hide XorWord, WordOf, AddRoundKey;
    AddedCol(s, w, r, 0);
    AddedCol(s, w, r, 1);
    AddedCol(s, w, r, 2);
    AddedCol(s, w, r, 3);
  }

  lemma AddedCol(s: Block, w: RoundKeys, r: nat, i: nat)
    requires r <= ROUNDS && i < 4
    ensures WordOf(AddRoundKey(s, w, r), i) == XorWord(WordOf(s, i), WordOf(w, 4 * r + i))
  {
    hide Xor;
    assert 16 * r + 4 * i == 4 * (4 * r + i);
  }

  lemma FirstCols(s: Block, w: RoundKeys)
    ensures ColsOf(FullRounds(s, w, 0)) == Added(ColsOf(s), KeyOf(w, 0))
  {
    hide AddRoundKey, Added, ColsOf, KeyOf;
    AddedCols(s, w, 0);
  }

  lemma RoundCols(s: Block, w: RoundKeys, r: nat)
    requires 0 < r < ROUNDS
    ensures ColsOf(FullRounds(s, w, r)) == Added(MixedAll(Shifted(ColsOf(FullRounds(s, w, r - 1)))), KeyOf(w, r))
  {
    hide AddRoundKey, MixColumns, ShiftRows, SubBytes, Added, Shifted, Mixed, KeyOf, WordOf;
    var t := FullRounds(s, w, r - 1);
    ShiftedCols(t);
    var u := ShiftRows(SubBytes(t));
    MixedCol(u, 0);
    MixedCol(u, 1);
    MixedCol(u, 2);
    MixedCol(u, 3);
    AddedCols(MixColumns(u), w, r);
  }

  lemma LastCols(s: Block, w: RoundKeys)
    ensures ColsOf(Cipher(s, w)) == Added(Shifted(ColsOf(FullRounds(s, w, ROUNDS - 1))), KeyOf(w, ROUNDS))
  {
    hide AddRoundKey, ShiftRows, SubBytes, Added, Shifted, KeyOf, ColsOf, FullRounds;
    var t := FullRounds(s, w, ROUNDS - 1);
    ShiftedCols(t);
    AddedCols(ShiftRows(SubBytes(t)), w, ROUNDS);
  }

  const C3_INPUT: Block := [0x00, 0x11, 0x22, 0x33, 0x44, 0x55, 0x66, 0x77, 0x88, 0x99, 0xaa, 0xbb, 0xcc, 0xdd, 0xee, 0xff]

  lemma Round1()
    ensures Added(ColsOf(C3_INPUT), Cols(Word(0x00, 0x01, 0x02, 0x03), Word(0x04, 0x05, 0x06, 0x07),
                                       Word(0x08, 0x09, 0x0a, 0x0b), Word(0x0c, 0x0d, 0x0e, 0x0f)))
         == Cols(Word(0x00, 0x10, 0x20, 0x30), Word(0x40, 0x50, 0x60, 0x70),
                 Word(0x80, 0x90, 0xa0, 0xb0), Word(0xc0, 0xd0, 0xe0, 0xf0))
    ensures Shifted(Cols(Word(0x00, 0x10, 0x20, 0x30), Word(0x40, 0x50, 0x60, 0x70),
                         Word(0x80, 0x90, 0xa0, 0xb0), Word(0xc0, 0xd0, 0xe0, 0xf0)))
         == Cols(Word(0x63, 0x53, 0xe0, 0x8c), Word(0x09, 0x60, 0xe1, 0x04),
                 Word(0xcd, 0x70, 0xb7, 0x51), Word(0xba, 0xca, 0xd0, 0xe7))
    ensures MixedAll(Cols(Word(0x63, 0x53, 0xe0, 0x8c), Word(0x09, 0x60, 0xe1, 0x04),
                          Word(0xcd, 0x70, 0xb7, 0x51), Word(0xba, 0xca, 0xd0, 0xe7)))
         == Cols(Word(0x5f, 0x72, 0x64, 0x15), Word(0x57, 0xf5, 0xbc, 0x92),
                 Word(0xf7, 0xbe, 0x3b, 0x29), Word(0x1d, 0xb9, 0xf9, 0x1a))
    ensures Added(Cols(Word(0x5f, 0x72, 0x64, 0x15), Word(0x57, 0xf5, 0xbc, 0x92),
                       Word(0xf7, 0xbe, 0x3b, 0x29), Word(0x1d, 0xb9, 0xf9, 0x1a)),
                  Cols(Word(0x10, 0x11, 0x12, 0x13), Word(0x14, 0x15, 0x16, 0x17),
                       Word(0x18, 0x19, 0x1a, 0x1b), Word(0x1c, 0x1d, 0x1e, 0x1f)))
         == Cols(Word(0x4f, 0x63, 0x76, 0x06), Word(0x43, 0xe0, 0xaa, 0x85),
                 Word(0xef, 0xa7, 0x21, 0x32), Word(0x01, 0xa4, 0xe7, 0x05))
  {
    hide Sbox;
    Bytes00(); Bytes10(); Bytes20(); Bytes30(); Bytes40(); Bytes50(); Bytes60(); Bytes70();
    Bytes80(); Bytes90(); Bytesa0(); Bytesb0(); Bytesc0(); Bytesd0(); Bytese0(); Bytesf0();
  }

  lemma Round2()
    ensures NextKey(Cols(Word(0x00, 0x01, 0x02, 0x03), Word(0x04, 0x05, 0x06, 0x07),
                         Word(0x08, 0x09, 0x0a, 0x0b), Word(0x0c, 0x0d, 0x0e, 0x0f)),
                    Cols(Word(0x10, 0x11, 0x12, 0x13), Word(0x14, 0x15, 0x16, 0x17),
                         Word(0x18, 0x19, 0x1a, 0x1b), Word(0x1c, 0x1d, 0x1e, 0x1f)), 2)
         == Cols(Word(0xa5, 0x73, 0xc2, 0x9f), Word(0xa1, 0x76, 0xc4, 0x98),
                 Word(0xa9, 0x7f, 0xce, 0x93), Word(0xa5, 0x72, 0xc0, 0x9c))
    ensures Shifted(Cols(Word(0x4f, 0x63, 0x76, 0x06), Word(0x43, 0xe0, 0xaa, 0x85),
                         Word(0xef, 0xa7, 0x21, 0x32), Word(0x01, 0xa4, 0xe7, 0x05)))
         == Cols(Word(0x84, 0xe1, 0xfd, 0x6b), Word(0x1a, 0x5c, 0x94, 0x6f),
                 Word(0xdf, 0x49, 0x38, 0x97), Word(0x7c, 0xfb, 0xac, 0x23))
    ensures MixedAll(Cols(Word(0x84, 0xe1, 0xfd, 0x6b), Word(0x1a, 0x5c, 0x94, 0x6f),
                          Word(0xdf, 0x49, 0x38, 0x97), Word(0x7c, 0xfb, 0xac, 0x23)))
         == Cols(Word(0xbd, 0x2a, 0x39, 0x5d), Word(0x2b, 0x6a, 0xc4, 0x38),
                 Word(0xd1, 0x92, 0x44, 0x3e), Word(0x61, 0x5d, 0xa1, 0x95))
    ensures Added(Cols(Word(0xbd, 0x2a, 0x39, 0x5d), Word(0x2b, 0x6a, 0xc4, 0x38),
                       Word(0xd1, 0x92, 0x44, 0x3e), Word(0x61, 0x5d, 0xa1, 0x95)),
                  Cols(Word(0xa5, 0x73, 0xc2, 0x9f), Word(0xa1, 0x76, 0xc4, 0x98),
                       Word(0xa9, 0x7f, 0xce, 0x93), Word(0xa5, 0x72, 0xc0, 0x9c)))
         == Cols(Word(0x18, 0x59, 0xfb, 0xc2), Word(0x8a, 0x1c, 0x00, 0xa0),
                 Word(0x78, 0xed, 0x8a, 0xad), Word(0xc4, 0x2f, 0x61, 0x09))
  {
    hide Sbox, NextKey;
    Bytes00(); Bytes18(); Bytes20(); Bytes30(); Bytes40(); Bytes48(); Bytes60(); Bytes70();
    Bytes80(); Bytesa0(); Bytesa8(); Bytese0(); Bytese8();
    Powers();
    var a := Cols(Word(0x00, 0x01, 0x02, 0x03), Word(0x04, 0x05, 0x06, 0x07),
                  Word(0x08, 0x09, 0x0a, 0x0b), Word(0x0c, 0x0d, 0x0e, 0x0f));
    var b := Cols(Word(0x10, 0x11, 0x12, 0x13), Word(0x14, 0x15, 0x16, 0x17),
                  Word(0x18, 0x19, 0x1a, 0x1b), Word(0x1c, 0x1d, 0x1e, 0x1f));
    RotatedKey(a, b, 2, 0x01, Word(0xa4, 0x72, 0xc0, 0x9c));
  }

  lemma Round3()
    ensures NextKey(Cols(Word(0x10, 0x11, 0x12, 0x13), Word(0x14, 0x15, 0x16, 0x17),
                         Word(0x18, 0x19, 0x1a, 0x1b), Word(0x1c, 0x1d, 0x1e, 0x1f)),
                    Cols(Word(0xa5, 0x73, 0xc2, 0x9f), Word(0xa1, 0x76, 0xc4, 0x98),
                         Word(0xa9, 0x7f, 0xce, 0x93), Word(0xa5, 0x72, 0xc0, 0x9c)), 3)
         == Cols(Word(0x16, 0x51, 0xa8, 0xcd), Word(0x02, 0x44, 0xbe, 0xda),
                 Word(0x1a, 0x5d, 0xa4, 0xc1), Word(0x06, 0x40, 0xba, 0xde))
    ensures Shifted(Cols(Word(0x18, 0x59, 0xfb, 0xc2), Word(0x8a, 0x1c, 0x00, 0xa0),
                         Word(0x78, 0xed, 0x8a, 0xad), Word(0xc4, 0x2f, 0x61, 0x09)))
         == Cols(Word(0xad, 0x9c, 0x7e, 0x01), Word(0x7e, 0x55, 0xef, 0x25),
                 Word(0xbc, 0x15, 0x0f, 0xe0), Word(0x1c, 0xcb, 0x63, 0x95))
    ensures MixedAll(Cols(Word(0xad, 0x9c, 0x7e, 0x01), Word(0x7e, 0x55, 0xef, 0x25),
                          Word(0xbc, 0x15, 0x0f, 0xe0), Word(0x1c, 0xcb, 0x63, 0x95)))
         == Cols(Word(0x81, 0x0d, 0xce, 0x0c), Word(0xc9, 0xdb, 0x81, 0x72),
                 Word(0xb3, 0x67, 0x8c, 0x1e), Word(0x88, 0xa1, 0xb5, 0xbd))
    ensures Added(Cols(Word(0x81, 0x0d, 0xce, 0x0c), Word(0xc9, 0xdb, 0x81, 0x72),
                       Word(0xb3, 0x67, 0x8c, 0x1e), Word(0x88, 0xa1, 0xb5, 0xbd)),
                  Cols(Word(0x16, 0x51, 0xa8, 0xcd), Word(0x02, 0x44, 0xbe, 0xda),
                       Word(0x1a, 0x5d, 0xa4, 0xc1), Word(0x06, 0x40, 0xba, 0xde)))
         == Cols(Word(0x97, 0x5c, 0x66, 0xc1), Word(0xcb, 0x9f, 0x3f, 0xa8),
                 Word(0xa9, 0x3a, 0x28, 0xdf), Word(0x8e, 0xe1, 0x0f, 0x63))
  {
    hide Sbox, NextKey;
    Bytes00(); Bytes08(); Bytes18(); Bytes28(); Bytes58(); Bytes60(); Bytes70(); Bytes78();
    Bytes88(); Bytes98(); Bytesa0(); Bytesa8(); Bytesc0(); Bytese8(); Bytesf8();
    var a := Cols(Word(0x10, 0x11, 0x12, 0x13), Word(0x14, 0x15, 0x16, 0x17),
                  Word(0x18, 0x19, 0x1a, 0x1b), Word(0x1c, 0x1d, 0x1e, 0x1f));
    var b := Cols(Word(0xa5, 0x73, 0xc2, 0x9f), Word(0xa1, 0x76, 0xc4, 0x98),
                  Word(0xa9, 0x7f, 0xce, 0x93), Word(0xa5, 0x72, 0xc0, 0x9c));
    SubstitutedKey(a, b, 3, Word(0x06, 0x40, 0xba, 0xde));
  }

  lemma Round4()
    ensures NextKey(Cols(Word(0xa5, 0x73, 0xc2, 0x9f), Word(0xa1, 0x76, 0xc4, 0x98),
                         Word(0xa9, 0x7f, 0xce, 0x93), Word(0xa5, 0x72, 0xc0, 0x9c)),
                    Cols(Word(0x16, 0x51, 0xa8, 0xcd), Word(0x02, 0x44, 0xbe, 0xda),
                         Word(0x1a, 0x5d, 0xa4, 0xc1), Word(0x06, 0x40, 0xba, 0xde)), 4)
         == Cols(Word(0xae, 0x87, 0xdf, 0xf0), Word(0x0f, 0xf1, 0x1b, 0x68),
                 Word(0xa6, 0x8e, 0xd5, 0xfb), Word(0x03, 0xfc, 0x15, 0x67))
    ensures Shifted(Cols(Word(0x97, 0x5c, 0x66, 0xc1), Word(0xcb, 0x9f, 0x3f, 0xa8),
                         Word(0xa9, 0x3a, 0x28, 0xdf), Word(0x8e, 0xe1, 0x0f, 0x63)))
         == Cols(Word(0x88, 0xdb, 0x34, 0xfb), Word(0x1f, 0x80, 0x76, 0x78),
                 Word(0xd3, 0xf8, 0x33, 0xc2), Word(0x19, 0x4a, 0x75, 0x9e))
    ensures MixedAll(Cols(Word(0x88, 0xdb, 0x34, 0xfb), Word(0x1f, 0x80, 0x76, 0x78),
                          Word(0xd3, 0xf8, 0x33, 0xc2), Word(0x19, 0x4a, 0x75, 0x9e)))
         == Cols(Word(0xb2, 0x82, 0x2d, 0x81), Word(0xab, 0xe6, 0xfb, 0x27),
                 Word(0x5f, 0xaf, 0x10, 0x3a), Word(0x07, 0x8c, 0x00, 0x33))
    ensures Added(Cols(Word(0xb2, 0x82, 0x2d, 0x81), Word(0xab, 0xe6, 0xfb, 0x27),
                       Word(0x5f, 0xaf, 0x10, 0x3a), Word(0x07, 0x8c, 0x00, 0x33)),
                  Cols(Word(0xae, 0x87, 0xdf, 0xf0), Word(0x0f, 0xf1, 0x1b, 0x68),
                       Word(0xa6, 0x8e, 0xd5, 0xfb), Word(0x03, 0xfc, 0x15, 0x67)))
         == Cols(Word(0x1c, 0x05, 0xf2, 0x71), Word(0xa4, 0x17, 0xe0, 0x4f),
                 Word(0xf9, 0x21, 0xc5, 0xc1), Word(0x04, 0x70, 0x15, 0x54))
  {
    hide Sbox, NextKey;
    Bytes00(); Bytes08(); Bytes28(); Bytes38(); Bytes40(); Bytes58(); Bytes60(); Bytes88();
    Bytes90(); Bytes98(); Bytesa8(); Bytesb8(); Bytesc0(); Bytesc8(); Bytesd8(); Bytese0();
    Powers();
    var a := Cols(Word(0xa5, 0x73, 0xc2, 0x9f), Word(0xa1, 0x76, 0xc4, 0x98),
                  Word(0xa9, 0x7f, 0xce, 0x93), Word(0xa5, 0x72, 0xc0, 0x9c));
    var b := Cols(Word(0x16, 0x51, 0xa8, 0xcd), Word(0x02, 0x44, 0xbe, 0xda),
                  Word(0x1a, 0x5d, 0xa4, 0xc1), Word(0x06, 0x40, 0xba, 0xde));
    RotatedKey(a, b, 4, 0x02, Word(0x09, 0xf4, 0x1d, 0x6f));
  }

  lemma Round5()
    ensures NextKey(Cols(Word(0x16, 0x51, 0xa8, 0xcd), Word(0x02, 0x44, 0xbe, 0xda),
                         Word(0x1a, 0x5d, 0xa4, 0xc1), Word(0x06, 0x40, 0xba, 0xde)),
                    Cols(Word(0xae, 0x87, 0xdf, 0xf0), Word(0x0f, 0xf1, 0x1b, 0x68),
                         Word(0xa6, 0x8e, 0xd5, 0xfb), Word(0x03, 0xfc, 0x15, 0x67)), 5)
         == Cols(Word(0x6d, 0xe1, 0xf1, 0x48), Word(0x6f, 0xa5, 0x4f, 0x92),
                 Word(0x75, 0xf8, 0xeb, 0x53), Word(0x73, 0xb8, 0x51, 0x8d))
    ensures Shifted(Cols(Word(0x1c, 0x05, 0xf2, 0x71), Word(0xa4, 0x17, 0xe0, 0x4f),
                         Word(0xf9, 0x21, 0xc5, 0xc1), Word(0x04, 0x70, 0x15, 0x54)))
         == Cols(Word(0x9c, 0xf0, 0xa6, 0x20), Word(0x49, 0xfd, 0x59, 0xa3),
                 Word(0x99, 0x51, 0x89, 0x84), Word(0xf2, 0x6b, 0xe1, 0x78))
    ensures MixedAll(Cols(Word(0x9c, 0xf0, 0xa6, 0x20), Word(0x49, 0xfd, 0x59, 0xa3),
                          Word(0x99, 0x51, 0x89, 0x84), Word(0xf2, 0x6b, 0xe1, 0x78)))
         == Cols(Word(0xae, 0xb6, 0x5b, 0xa9), Word(0x74, 0xe0, 0xf8, 0x22),
                 Word(0xd7, 0x3f, 0x56, 0x7b), Word(0xdb, 0x64, 0xc8, 0x77))
    ensures Added(Cols(Word(0xae, 0xb6, 0x5b, 0xa9), Word(0x74, 0xe0, 0xf8, 0x22),
                       Word(0xd7, 0x3f, 0x56, 0x7b), Word(0xdb, 0x64, 0xc8, 0x77)),
                  Cols(Word(0x6d, 0xe1, 0xf1, 0x48), Word(0x6f, 0xa5, 0x4f, 0x92),
                       Word(0x75, 0xf8, 0xeb, 0x53), Word(0x73, 0xb8, 0x51, 0x8d)))
         == Cols(Word(0xc3, 0x57, 0xaa, 0xe1), Word(0x1b, 0x45, 0xb7, 0xb0),
                 Word(0xa2, 0xc7, 0xbd, 0x28), Word(0xa8, 0xdc, 0x99, 0xfa))
  {
    hide Sbox, NextKey;
    Bytes00(); Bytes10(); Bytes18(); Bytes20(); Bytes48(); Bytes50(); Bytes60(); Bytes70();
    Bytesa0(); Bytesc0(); Bytese0(); Bytesf0(); Bytesf8();
    var a := Cols(Word(0x16, 0x51, 0xa8, 0xcd), Word(0x02, 0x44, 0xbe, 0xda),
                  Word(0x1a, 0x5d, 0xa4, 0xc1), Word(0x06, 0x40, 0xba, 0xde));
    var b := Cols(Word(0xae, 0x87, 0xdf, 0xf0), Word(0x0f, 0xf1, 0x1b, 0x68),
                  Word(0xa6, 0x8e, 0xd5, 0xfb), Word(0x03, 0xfc, 0x15, 0x67));
    SubstitutedKey(a, b, 5, Word(0x7b, 0xb0, 0x59, 0x85));
  }

  lemma Round6()
    ensures NextKey(Cols(Word(0xae, 0x87, 0xdf, 0xf0), Word(0x0f, 0xf1, 0x1b, 0x68),
                         Word(0xa6, 0x8e, 0xd5, 0xfb), Word(0x03, 0xfc, 0x15, 0x67)),
                    Cols(Word(0x6d, 0xe1, 0xf1, 0x48), Word(0x6f, 0xa5, 0x4f, 0x92),
                         Word(0x75, 0xf8, 0xeb, 0x53), Word(0x73, 0xb8, 0x51, 0x8d)), 6)
         == Cols(Word(0xc6, 0x56, 0x82, 0x7f), Word(0xc9, 0xa7, 0x99, 0x17),
                 Word(0x6f, 0x29, 0x4c, 0xec), Word(0x6c, 0xd5, 0x59, 0x8b))
    ensures Shifted(Cols(Word(0xc3, 0x57, 0xaa, 0xe1), Word(0x1b, 0x45, 0xb7, 0xb0),
                         Word(0xa2, 0xc7, 0xbd, 0x28), Word(0xa8, 0xdc, 0x99, 0xfa)))
         == Cols(Word(0x2e, 0x6e, 0x7a, 0x2d), Word(0xaf, 0xc6, 0xee, 0xf8),
                 Word(0x3a, 0x86, 0xac, 0xe7), Word(0xc2, 0x5b, 0xa9, 0x34))
    ensures MixedAll(Cols(Word(0x2e, 0x6e, 0x7a, 0x2d), Word(0xaf, 0xc6, 0xee, 0xf8),
                          Word(0x3a, 0x86, 0xac, 0xe7), Word(0xc2, 0x5b, 0xa9, 0x34)))
         == Cols(Word(0xb9, 0x51, 0xc3, 0x3c), Word(0x02, 0xe9, 0xbd, 0x29),
                 Word(0xae, 0x25, 0xcd, 0xb1), Word(0xef, 0xa0, 0x8c, 0xc7))
    ensures Added(Cols(Word(0xb9, 0x51, 0xc3, 0x3c), Word(0x02, 0xe9, 0xbd, 0x29),
                       Word(0xae, 0x25, 0xcd, 0xb1), Word(0xef, 0xa0, 0x8c, 0xc7)),
                  Cols(Word(0xc6, 0x56, 0x82, 0x7f), Word(0xc9, 0xa7, 0x99, 0x17),
                       Word(0x6f, 0x29, 0x4c, 0xec), Word(0x6c, 0xd5, 0x59, 0x8b)))
         == Cols(Word(0x7f, 0x07, 0x41, 0x43), Word(0xcb, 0x4e, 0x24, 0x3e),
                 Word(0xc1, 0x0c, 0x81, 0x5d), Word(0x83, 0x75, 0xd5, 0x4c))
  {
    hide Sbox, NextKey;
    Bytes18(); Bytes28(); Bytes40(); Bytes50(); Bytes70(); Bytes88(); Bytes98(); Bytesa0();
    Bytesa8(); Bytesb0(); Bytesb8(); Bytesc0(); Bytesd8(); Bytese0(); Bytesf8();
    Powers();
    var a := Cols(Word(0xae, 0x87, 0xdf, 0xf0), Word(0x0f, 0xf1, 0x1b, 0x68),
                  Word(0xa6, 0x8e, 0xd5, 0xfb), Word(0x03, 0xfc, 0x15, 0x67));
    var b := Cols(Word(0x6d, 0xe1, 0xf1, 0x48), Word(0x6f, 0xa5, 0x4f, 0x92),
                  Word(0x75, 0xf8, 0xeb, 0x53), Word(0x73, 0xb8, 0x51, 0x8d));
    RotatedKey(a, b, 6, 0x04, Word(0x6c, 0xd1, 0x5d, 0x8f));
  }

  lemma Round7()
    ensures NextKey(Cols(Word(0x6d, 0xe1, 0xf1, 0x48), Word(0x6f, 0xa5, 0x4f, 0x92),
                         Word(0x75, 0xf8, 0xeb, 0x53), Word(0x73, 0xb8, 0x51, 0x8d)),
                    Cols(Word(0xc6, 0x56, 0x82, 0x7f), Word(0xc9, 0xa7, 0x99, 0x17),
                         Word(0x6f, 0x29, 0x4c, 0xec), Word(0x6c, 0xd5, 0x59, 0x8b)), 7)
         == Cols(Word(0x3d, 0xe2, 0x3a, 0x75), Word(0x52, 0x47, 0x75, 0xe7),
                 Word(0x27, 0xbf, 0x9e, 0xb4), Word(0x54, 0x07, 0xcf, 0x39))
    ensures Shifted(Cols(Word(0x7f, 0x07, 0x41, 0x43), Word(0xcb, 0x4e, 0x24, 0x3e),
                         Word(0xc1, 0x0c, 0x81, 0x5d), Word(0x83, 0x75, 0xd5, 0x4c)))
         == Cols(Word(0xd2, 0x2f, 0x0c, 0x29), Word(0x1f, 0xfe, 0x03, 0x1a),
                 Word(0x78, 0x9d, 0x83, 0xb2), Word(0xec, 0xc5, 0x36, 0x4c))
    ensures MixedAll(Cols(Word(0xd2, 0x2f, 0x0c, 0x29), Word(0x1f, 0xfe, 0x03, 0x1a),
                          Word(0x78, 0x9d, 0x83, 0xb2), Word(0xec, 0xc5, 0x36, 0x4c)))
         == Cols(Word(0xeb, 0xb1, 0x9e, 0x1c), Word(0x3e, 0xe7, 0xc9, 0xe8),
                 Word(0x7d, 0x75, 0x35, 0xe9), Word(0xed, 0x6b, 0x91, 0x44))
    ensures Added(Cols(Word(0xeb, 0xb1, 0x9e, 0x1c), Word(0x3e, 0xe7, 0xc9, 0xe8),
                       Word(0x7d, 0x75, 0x35, 0xe9), Word(0xed, 0x6b, 0x91, 0x44)),
                  Cols(Word(0x3d, 0xe2, 0x3a, 0x75), Word(0x52, 0x47, 0x75, 0xe7),
                       Word(0x27, 0xbf, 0x9e, 0xb4), Word(0x54, 0x07, 0xcf, 0x39)))
         == Cols(Word(0xd6, 0x53, 0xa4, 0x69), Word(0x6c, 0xa0, 0xbc, 0x0f),
                 Word(0x5a, 0xca, 0xab, 0x5d), Word(0xb9, 0x6c, 0x5e, 0x7d))
  {
    hide Sbox, NextKey;
    Bytes00(); Bytes08(); Bytes20(); Bytes38(); Bytes40(); Bytes48(); Bytes58(); Bytes68();
    Bytes70(); Bytes78(); Bytes80(); Bytes88(); Bytesc0(); Bytesc8(); Bytesd0();
    var a := Cols(Word(0x6d, 0xe1, 0xf1, 0x48), Word(0x6f, 0xa5, 0x4f, 0x92),
                  Word(0x75, 0xf8, 0xeb, 0x53), Word(0x73, 0xb8, 0x51, 0x8d));
    var b := Cols(Word(0xc6, 0x56, 0x82, 0x7f), Word(0xc9, 0xa7, 0x99, 0x17),
                  Word(0x6f, 0x29, 0x4c, 0xec), Word(0x6c, 0xd5, 0x59, 0x8b));
    SubstitutedKey(a, b, 7, Word(0x50, 0x03, 0xcb, 0x3d));
  }

  lemma Round8()
    ensures NextKey(Cols(Word(0xc6, 0x56, 0x82, 0x7f), Word(0xc9, 0xa7, 0x99, 0x17),
                         Word(0x6f, 0x29, 0x4c, 0xec), Word(0x6c, 0xd5, 0x59, 0x8b)),
                    Cols(Word(0x3d, 0xe2, 0x3a, 0x75), Word(0x52, 0x47, 0x75, 0xe7),
                         Word(0x27, 0xbf, 0x9e, 0xb4), Word(0x54, 0x07, 0xcf, 0x39)), 8)
         == Cols(Word(0x0b, 0xdc, 0x90, 0x5f), Word(0xc2, 0x7b, 0x09, 0x48),
                 Word(0xad, 0x52, 0x45, 0xa4), Word(0xc1, 0x87, 0x1c, 0x2f))
    ensures Shifted(Cols(Word(0xd6, 0x53, 0xa4, 0x69), Word(0x6c, 0xa0, 0xbc, 0x0f),
                         Word(0x5a, 0xca, 0xab, 0x5d), Word(0xb9, 0x6c, 0x5e, 0x7d)))
         == Cols(Word(0xf6, 0xe0, 0x62, 0xff), Word(0x50, 0x74, 0x58, 0xf9),
                 Word(0xbe, 0x50, 0x49, 0x76), Word(0x56, 0xed, 0x65, 0x4c))
    ensures MixedAll(Cols(Word(0xf6, 0xe0, 0x62, 0xff), Word(0x50, 0x74, 0x58, 0xf9),
                          Word(0xbe, 0x50, 0x49, 0x76), Word(0x56, 0xed, 0x65, 0x4c)))
         == Cols(Word(0x51, 0x74, 0xc8, 0x66), Word(0x9d, 0xa9, 0x84, 0x35),
                 Word(0xa8, 0xb3, 0xe6, 0x2c), Word(0xa9, 0x74, 0xa5, 0xea))
    ensures Added(Cols(Word(0x51, 0x74, 0xc8, 0x66), Word(0x9d, 0xa9, 0x84, 0x35),
                       Word(0xa8, 0xb3, 0xe6, 0x2c), Word(0xa9, 0x74, 0xa5, 0xea)),
                  Cols(Word(0x0b, 0xdc, 0x90, 0x5f), Word(0xc2, 0x7b, 0x09, 0x48),
                       Word(0xad, 0x52, 0x45, 0xa4), Word(0xc1, 0x87, 0x1c, 0x2f)))
         == Cols(Word(0x5a, 0xa8, 0x58, 0x39), Word(0x5f, 0xd2, 0x8d, 0x7d),
                 Word(0x05, 0xe1, 0xa3, 0x88), Word(0x68, 0xf3, 0xb9, 0xc5))
  {
    hide Sbox, NextKey;
    Bytes00(); Bytes08(); Bytes38(); Bytes50(); Bytes58(); Bytes68(); Bytes78(); Bytesa0();
    Bytesa8(); Bytesb8(); Bytesc8(); Bytesd0();
    Powers();
    var a := Cols(Word(0xc6, 0x56, 0x82, 0x7f), Word(0xc9, 0xa7, 0x99, 0x17),
                  Word(0x6f, 0x29, 0x4c, 0xec), Word(0x6c, 0xd5, 0x59, 0x8b));
    var b := Cols(Word(0x3d, 0xe2, 0x3a, 0x75), Word(0x52, 0x47, 0x75, 0xe7),
                  Word(0x27, 0xbf, 0x9e, 0xb4), Word(0x54, 0x07, 0xcf, 0x39));
    RotatedKey(a, b, 8, 0x08, Word(0xc5, 0x8a, 0x12, 0x20));
  }

  lemma Round9()
    ensures NextKey(Cols(Word(0x3d, 0xe2, 0x3a, 0x75), Word(0x52, 0x47, 0x75, 0xe7),
                         Word(0x27, 0xbf, 0x9e, 0xb4), Word(0x54, 0x07, 0xcf, 0x39)),
                    Cols(Word(0x0b, 0xdc, 0x90, 0x5f), Word(0xc2, 0x7b, 0x09, 0x48),
                         Word(0xad, 0x52, 0x45, 0xa4), Word(0xc1, 0x87, 0x1c, 0x2f)), 9)
         == Cols(Word(0x45, 0xf5, 0xa6, 0x60), Word(0x17, 0xb2, 0xd3, 0x87),
                 Word(0x30, 0x0d, 0x4d, 0x33), Word(0x64, 0x0a, 0x82, 0x0a))
    ensures Shifted(Cols(Word(0x5a, 0xa8, 0x58, 0x39), Word(0x5f, 0xd2, 0x8d, 0x7d),
                         Word(0x05, 0xe1, 0xa3, 0x88), Word(0x68, 0xf3, 0xb9, 0xc5)))
         == Cols(Word(0xbe, 0xb5, 0x0a, 0xa6), Word(0xcf, 0xf8, 0x56, 0x12),
                 Word(0x6b, 0x0d, 0x6a, 0xff), Word(0x45, 0xc2, 0x5d, 0xc4))
    ensures MixedAll(Cols(Word(0xbe, 0xb5, 0x0a, 0xa6), Word(0xcf, 0xf8, 0x56, 0x12),
                          Word(0x6b, 0x0d, 0x6a, 0xff), Word(0x45, 0xc2, 0x5d, 0xc4)))
         == Cols(Word(0x0f, 0x77, 0xee, 0x31), Word(0xd2, 0xcc, 0xad, 0xc0),
                 Word(0x54, 0x30, 0xa8, 0x3f), Word(0x4e, 0xf9, 0x6a, 0xc3))
    ensures Added(Cols(Word(0x0f, 0x77, 0xee, 0x31), Word(0xd2, 0xcc, 0xad, 0xc0),
                       Word(0x54, 0x30, 0xa8, 0x3f), Word(0x4e, 0xf9, 0x6a, 0xc3)),
                  Cols(Word(0x45, 0xf5, 0xa6, 0x60), Word(0x17, 0xb2, 0xd3, 0x87),
                       Word(0x30, 0x0d, 0x4d, 0x33), Word(0x64, 0x0a, 0x82, 0x0a)))
         == Cols(Word(0x4a, 0x82, 0x48, 0x51), Word(0xc5, 0x7e, 0x7e, 0x47),
                 Word(0x64, 0x3d, 0xe5, 0x0c), Word(0x2a, 0xf3, 0xe8, 0xc9))
  {
    hide Sbox, NextKey;
    Bytes00(); Bytes18(); Bytes28(); Bytes38(); Bytes58(); Bytes68(); Bytes78(); Bytes80();
    Bytes88(); Bytesa0(); Bytesa8(); Bytesb8(); Bytesc0(); Bytesd0(); Bytese0(); Bytesf0();
    var a := Cols(Word(0x3d, 0xe2, 0x3a, 0x75), Word(0x52, 0x47, 0x75, 0xe7),
                  Word(0x27, 0xbf, 0x9e, 0xb4), Word(0x54, 0x07, 0xcf, 0x39));
    var b := Cols(Word(0x0b, 0xdc, 0x90, 0x5f), Word(0xc2, 0x7b, 0x09, 0x48),
                  Word(0xad, 0x52, 0x45, 0xa4), Word(0xc1, 0x87, 0x1c, 0x2f));
    SubstitutedKey(a, b, 9, Word(0x78, 0x17, 0x9c, 0x15));
  }

  lemma Round10()
    ensures NextKey(Cols(Word(0x0b, 0xdc, 0x90, 0x5f), Word(0xc2, 0x7b, 0x09, 0x48),
                         Word(0xad, 0x52, 0x45, 0xa4), Word(0xc1, 0x87, 0x1c, 0x2f)),
                    Cols(Word(0x45, 0xf5, 0xa6, 0x60), Word(0x17, 0xb2, 0xd3, 0x87),
                         Word(0x30, 0x0d, 0x4d, 0x33), Word(0x64, 0x0a, 0x82, 0x0a)), 10)
         == Cols(Word(0x7c, 0xcf, 0xf7, 0x1c), Word(0xbe, 0xb4, 0xfe, 0x54),
                 Word(0x13, 0xe6, 0xbb, 0xf0), Word(0xd2, 0x61, 0xa7, 0xdf))
    ensures Shifted(Cols(Word(0x4a, 0x82, 0x48, 0x51), Word(0xc5, 0x7e, 0x7e, 0x47),
                         Word(0x64, 0x3d, 0xe5, 0x0c), Word(0x2a, 0xf3, 0xe8, 0xc9)))
         == Cols(Word(0xd6, 0xf3, 0xd9, 0xdd), Word(0xa6, 0x27, 0x9b, 0xd1),
                 Word(0x43, 0x0d, 0x52, 0xa0), Word(0xe5, 0x13, 0xf3, 0xfe))
    ensures MixedAll(Cols(Word(0xd6, 0xf3, 0xd9, 0xdd), Word(0xa6, 0x27, 0x9b, 0xd1),
                          Word(0x43, 0x0d, 0x52, 0xa0), Word(0xe5, 0x13, 0xf3, 0xfe)))
         == Cols(Word(0xbd, 0x86, 0xf0, 0xea), Word(0x74, 0x8f, 0xc4, 0xf4),
                 Word(0x63, 0x0f, 0x11, 0xc1), Word(0xe9, 0x33, 0x12, 0x33))
    ensures Added(Cols(Word(0xbd, 0x86, 0xf0, 0xea), Word(0x74, 0x8f, 0xc4, 0xf4),
                       Word(0x63, 0x0f, 0x11, 0xc1), Word(0xe9, 0x33, 0x12, 0x33)),
                  Cols(Word(0x7c, 0xcf, 0xf7, 0x1c), Word(0xbe, 0xb4, 0xfe, 0x54),
                       Word(0x13, 0xe6, 0xbb, 0xf0), Word(0xd2, 0x61, 0xa7, 0xdf)))
         == Cols(Word(0xc1, 0x49, 0x07, 0xf6), Word(0xca, 0x3b, 0x3a, 0xa0),
                 Word(0x70, 0xe9, 0xaa, 0x31), Word(0x3b, 0x52, 0xb5, 0xec))
  {
    hide Sbox, NextKey;
    Bytes08(); Bytes28(); Bytes38(); Bytes40(); Bytes48(); Bytes50(); Bytes60(); Bytes78();
    Bytes80(); Bytesc0(); Bytesc8(); Bytese0(); Bytese8(); Bytesf0();
    Powers();
    var a := Cols(Word(0x0b, 0xdc, 0x90, 0x5f), Word(0xc2, 0x7b, 0x09, 0x48),
                  Word(0xad, 0x52, 0x45, 0xa4), Word(0xc1, 0x87, 0x1c, 0x2f));
    var b := Cols(Word(0x45, 0xf5, 0xa6, 0x60), Word(0x17, 0xb2, 0xd3, 0x87),
                  Word(0x30, 0x0d, 0x4d, 0x33), Word(0x64, 0x0a, 0x82, 0x0a));
    RotatedKey(a, b, 10, 0x10, Word(0x67, 0x13, 0x67, 0x43));
  }

  lemma Round11()
    ensures NextKey(Cols(Word(0x45, 0xf5, 0xa6, 0x60), Word(0x17, 0xb2, 0xd3, 0x87),
                         Word(0x30, 0x0d, 0x4d, 0x33), Word(0x64, 0x0a, 0x82, 0x0a)),
                    Cols(Word(0x7c, 0xcf, 0xf7, 0x1c), Word(0xbe, 0xb4, 0xfe, 0x54),
                         Word(0x13, 0xe6, 0xbb, 0xf0), Word(0xd2, 0x61, 0xa7, 0xdf)), 11)
         == Cols(Word(0xf0, 0x1a, 0xfa, 0xfe), Word(0xe7, 0xa8, 0x29, 0x79),
                 Word(0xd7, 0xa5, 0x64, 0x4a), Word(0xb3, 0xaf, 0xe6, 0x40))
    ensures Shifted(Cols(Word(0xc1, 0x49, 0x07, 0xf6), Word(0xca, 0x3b, 0x3a, 0xa0),
                         Word(0x70, 0xe9, 0xaa, 0x31), Word(0x3b, 0x52, 0xb5, 0xec)))
         == Cols(Word(0x78, 0xe2, 0xac, 0xce), Word(0x74, 0x1e, 0xd5, 0x42),
                 Word(0x51, 0x00, 0xc5, 0xe0), Word(0xe2, 0x3b, 0x80, 0xc7))
    ensures MixedAll(Cols(Word(0x78, 0xe2, 0xac, 0xce), Word(0x74, 0x1e, 0xd5, 0x42),
                          Word(0x51, 0x00, 0xc5, 0xe0), Word(0xe2, 0x3b, 0x80, 0xc7)))
         == Cols(Word(0xaf, 0x86, 0x90, 0x41), Word(0x5d, 0x6e, 0x1d, 0xd3),
                 Word(0x87, 0xe5, 0xfb, 0xed), Word(0xd5, 0xc8, 0x90, 0x13))
    ensures Added(Cols(Word(0xaf, 0x86, 0x90, 0x41), Word(0x5d, 0x6e, 0x1d, 0xd3),
                       Word(0x87, 0xe5, 0xfb, 0xed), Word(0xd5, 0xc8, 0x90, 0x13)),
                  Cols(Word(0xf0, 0x1a, 0xfa, 0xfe), Word(0xe7, 0xa8, 0x29, 0x79),
                       Word(0xd7, 0xa5, 0x64, 0x4a), Word(0xb3, 0xaf, 0xe6, 0x40)))
         == Cols(Word(0x5f, 0x9c, 0x6a, 0xbf), Word(0xba, 0xc6, 0x34, 0xaa),
                 Word(0x50, 0x40, 0x9f, 0xa7), Word(0x66, 0x67, 0x76, 0x53))
  {
    hide Sbox, NextKey;
    Bytes00(); Bytes30(); Bytes38(); Bytes48(); Bytes50(); Bytes60(); Bytes70(); Bytesa0();
    Bytesa8(); Bytesb0(); Bytesc0(); Bytesc8(); Bytesd0(); Bytesd8(); Bytese8(); Bytesf0();
    var a := Cols(Word(0x45, 0xf5, 0xa6, 0x60), Word(0x17, 0xb2, 0xd3, 0x87),
                  Word(0x30, 0x0d, 0x4d, 0x33), Word(0x64, 0x0a, 0x82, 0x0a));
    var b := Cols(Word(0x7c, 0xcf, 0xf7, 0x1c), Word(0xbe, 0xb4, 0xfe, 0x54),
                  Word(0x13, 0xe6, 0xbb, 0xf0), Word(0xd2, 0x61, 0xa7, 0xdf));
    SubstitutedKey(a, b, 11, Word(0xb5, 0xef, 0x5c, 0x9e));
  }

  lemma Round12()
    ensures NextKey(Cols(Word(0x7c, 0xcf, 0xf7, 0x1c), Word(0xbe, 0xb4, 0xfe, 0x54),
                         Word(0x13, 0xe6, 0xbb, 0xf0), Word(0xd2, 0x61, 0xa7, 0xdf)),
                    Cols(Word(0xf0, 0x1a, 0xfa, 0xfe), Word(0xe7, 0xa8, 0x29, 0x79),
                         Word(0xd7, 0xa5, 0x64, 0x4a), Word(0xb3, 0xaf, 0xe6, 0x40)), 12)
         == Cols(Word(0x25, 0x41, 0xfe, 0x71), Word(0x9b, 0xf5, 0x00, 0x25),
                 Word(0x88, 0x13, 0xbb, 0xd5), Word(0x5a, 0x72, 0x1c, 0x0a))
    ensures Shifted(Cols(Word(0x5f, 0x9c, 0x6a, 0xbf), Word(0xba, 0xc6, 0x34, 0xaa),
                         Word(0x50, 0x40, 0x9f, 0xa7), Word(0x66, 0x67, 0x76, 0x53)))
         == Cols(Word(0xcf, 0xb4, 0xdb, 0xed), Word(0xf4, 0x09, 0x38, 0x08),
                 Word(0x53, 0x85, 0x02, 0xac), Word(0x33, 0xde, 0x18, 0x5c))
    ensures MixedAll(Cols(Word(0xcf, 0xb4, 0xdb, 0xed), Word(0xf4, 0x09, 0x38, 0x08),
                          Word(0x53, 0x85, 0x02, 0xac), Word(0x33, 0xde, 0x18, 0x5c)))
         == Cols(Word(0x74, 0x27, 0xfa, 0xe4), Word(0xd8, 0xa6, 0x95, 0x26),
                 Word(0x9c, 0xe8, 0x3d, 0x31), Word(0x5b, 0xe0, 0x39, 0x2b))
    ensures Added(Cols(Word(0x74, 0x27, 0xfa, 0xe4), Word(0xd8, 0xa6, 0x95, 0x26),
                       Word(0x9c, 0xe8, 0x3d, 0x31), Word(0x5b, 0xe0, 0x39, 0x2b)),
                  Cols(Word(0x25, 0x41, 0xfe, 0x71), Word(0x9b, 0xf5, 0x00, 0x25),
                       Word(0x88, 0x13, 0xbb, 0xd5), Word(0x5a, 0x72, 0x1c, 0x0a)))
         == Cols(Word(0x51, 0x66, 0x04, 0x95), Word(0x43, 0x53, 0x95, 0x03),
                 Word(0x14, 0xfb, 0x86, 0xe4), Word(0x01, 0x92, 0x25, 0x21))
  {
    hide Sbox, NextKey;
    Bytes30(); Bytes40(); Bytes50(); Bytes58(); Bytes60(); Bytes68(); Bytes70(); Bytes98();
    Bytesa0(); Bytesa8(); Bytesb0(); Bytesb8(); Bytesc0(); Bytese0();
    Powers();
    var a := Cols(Word(0x7c, 0xcf, 0xf7, 0x1c), Word(0xbe, 0xb4, 0xfe, 0x54),
                  Word(0x13, 0xe6, 0xbb, 0xf0), Word(0xd2, 0x61, 0xa7, 0xdf));
    var b := Cols(Word(0xf0, 0x1a, 0xfa, 0xfe), Word(0xe7, 0xa8, 0x29, 0x79),
                  Word(0xd7, 0xa5, 0x64, 0x4a), Word(0xb3, 0xaf, 0xe6, 0x40));
    RotatedKey(a, b, 12, 0x20, Word(0x79, 0x8e, 0x09, 0x6d));
  }

  lemma Round13()
    ensures NextKey(Cols(Word(0xf0, 0x1a, 0xfa, 0xfe), Word(0xe7, 0xa8, 0x29, 0x79),
                         Word(0xd7, 0xa5, 0x64, 0x4a), Word(0xb3, 0xaf, 0xe6, 0x40)),
                    Cols(Word(0x25, 0x41, 0xfe, 0x71), Word(0x9b, 0xf5, 0x00, 0x25),
                         Word(0x88, 0x13, 0xbb, 0xd5), Word(0x5a, 0x72, 0x1c, 0x0a)), 13)
         == Cols(Word(0x4e, 0x5a, 0x66, 0x99), Word(0xa9, 0xf2, 0x4f, 0xe0),
                 Word(0x7e, 0x57, 0x2b, 0xaa), Word(0xcd, 0xf8, 0xcd, 0xea))
    ensures Shifted(Cols(Word(0x51, 0x66, 0x04, 0x95), Word(0x43, 0x53, 0x95, 0x03),
                         Word(0x14, 0xfb, 0x86, 0xe4), Word(0x01, 0x92, 0x25, 0x21)))
         == Cols(Word(0xd1, 0xed, 0x44, 0xfd), Word(0x1a, 0x0f, 0x3f, 0x2a),
                 Word(0xfa, 0x4f, 0xf2, 0x7b), Word(0x7c, 0x33, 0x2a, 0x69))
    ensures MixedAll(Cols(Word(0xd1, 0xed, 0x44, 0xfd), Word(0x1a, 0x0f, 0x3f, 0x2a),
                          Word(0xfa, 0x4f, 0xf2, 0x7b), Word(0x7c, 0x33, 0x2a, 0x69)))
         == Cols(Word(0x2c, 0x21, 0xa8, 0x20), Word(0x30, 0x6f, 0x15, 0x4a),
                 Word(0xb7, 0x12, 0xc7, 0x5e), Word(0xee, 0x0d, 0xa0, 0x4f))
    ensures Added(Cols(Word(0x2c, 0x21, 0xa8, 0x20), Word(0x30, 0x6f, 0x15, 0x4a),
                       Word(0xb7, 0x12, 0xc7, 0x5e), Word(0xee, 0x0d, 0xa0, 0x4f)),
                  Cols(Word(0x4e, 0x5a, 0x66, 0x99), Word(0xa9, 0xf2, 0x4f, 0xe0),
                       Word(0x7e, 0x57, 0x2b, 0xaa), Word(0xcd, 0xf8, 0xcd, 0xea)))
         == Cols(Word(0x62, 0x7b, 0xce, 0xb9), Word(0x99, 0x9d, 0x5a, 0xaa),
                 Word(0xc9, 0x45, 0xec, 0xf4), Word(0x23, 0xf5, 0x6d, 0xa5))
  {
    hide Sbox, NextKey;
    Bytes00(); Bytes08(); Bytes10(); Bytes18(); Bytes20(); Bytes40(); Bytes50(); Bytes58();
    Bytes60(); Bytes70(); Bytes80(); Bytes90(); Bytese0(); Bytesf8();
    var a := Cols(Word(0xf0, 0x1a, 0xfa, 0xfe), Word(0xe7, 0xa8, 0x29, 0x79),
                  Word(0xd7, 0xa5, 0x64, 0x4a), Word(0xb3, 0xaf, 0xe6, 0x40));
    var b := Cols(Word(0x25, 0x41, 0xfe, 0x71), Word(0x9b, 0xf5, 0x00, 0x25),
                  Word(0x88, 0x13, 0xbb, 0xd5), Word(0x5a, 0x72, 0x1c, 0x0a));
    SubstitutedKey(a, b, 13, Word(0xbe, 0x40, 0x9c, 0x67));
  }

  lemma Round14()
    ensures NextKey(Cols(Word(0x25, 0x41, 0xfe, 0x71), Word(0x9b, 0xf5, 0x00, 0x25),
                         Word(0x88, 0x13, 0xbb, 0xd5), Word(0x5a, 0x72, 0x1c, 0x0a)),
                    Cols(Word(0x4e, 0x5a, 0x66, 0x99), Word(0xa9, 0xf2, 0x4f, 0xe0),
                         Word(0x7e, 0x57, 0x2b, 0xaa), Word(0xcd, 0xf8, 0xcd, 0xea)), 14)
         == Cols(Word(0x24, 0xfc, 0x79, 0xcc), Word(0xbf, 0x09, 0x79, 0xe9),
                 Word(0x37, 0x1a, 0xc2, 0x3c), Word(0x6d, 0x68, 0xde, 0x36))
    ensures Shifted(Cols(Word(0x62, 0x7b, 0xce, 0xb9), Word(0x99, 0x9d, 0x5a, 0xaa),
                         Word(0xc9, 0x45, 0xec, 0xf4), Word(0x23, 0xf5, 0x6d, 0xa5)))
         == Cols(Word(0xaa, 0x5e, 0xce, 0x06), Word(0xee, 0x6e, 0x3c, 0x56),
                 Word(0xdd, 0xe6, 0x8b, 0xac), Word(0x26, 0x21, 0xbe, 0xbf))
    ensures Added(Cols(Word(0xaa, 0x5e, 0xce, 0x06), Word(0xee, 0x6e, 0x3c, 0x56),
                       Word(0xdd, 0xe6, 0x8b, 0xac), Word(0x26, 0x21, 0xbe, 0xbf)),
                  Cols(Word(0x24, 0xfc, 0x79, 0xcc), Word(0xbf, 0x09, 0x79, 0xe9),
                       Word(0x37, 0x1a, 0xc2, 0x3c), Word(0x6d, 0x68, 0xde, 0x36)))
         == Cols(Word(0x8e, 0xa2, 0xb7, 0xca), Word(0x51, 0x67, 0x45, 0xbf),
                 Word(0xea, 0xfc, 0x49, 0x90), Word(0x4b, 0x49, 0x60, 0x89))
  {
    hide Sbox, NextKey;
    Bytes20(); Bytes40(); Bytes58(); Bytes60(); Bytes68(); Bytes78(); Bytes98(); Bytesa0();
    Bytesa8(); Bytesb8(); Bytesc8(); Bytese8(); Bytesf0(); Bytesf8();
    Powers();
    var a := Cols(Word(0x25, 0x41, 0xfe, 0x71), Word(0x9b, 0xf5, 0x00, 0x25),
                  Word(0x88, 0x13, 0xbb, 0xd5), Word(0x5a, 0x72, 0x1c, 0x0a));
    var b := Cols(Word(0x4e, 0x5a, 0x66, 0x99), Word(0xa9, 0xf2, 0x4f, 0xe0),
                  Word(0x7e, 0x57, 0x2b, 0xaa), Word(0xcd, 0xf8, 0xcd, 0xea));
    RotatedKey(a, b, 14, 0x40, Word(0x41, 0xbd, 0x87, 0xbd));
  }

  lemma C3Expanded(key: Key)
    requires RoundKey(key, 0) == Cols(Word(0x00, 0x01, 0x02, 0x03), Word(0x04, 0x05, 0x06, 0x07),
                                      Word(0x08, 0x09, 0x0a, 0x0b), Word(0x0c, 0x0d, 0x0e, 0x0f))
    requires RoundKey(key, 1) == Cols(Word(0x10, 0x11, 0x12, 0x13), Word(0x14, 0x15, 0x16, 0x17),
                                      Word(0x18, 0x19, 0x1a, 0x1b), Word(0x1c, 0x1d, 0x1e, 0x1f))
    ensures RoundKey(key, 2) == Cols(Word(0xa5, 0x73, 0xc2, 0x9f), Word(0xa1, 0x76, 0xc4, 0x98),
                                     Word(0xa9, 0x7f, 0xce, 0x93), Word(0xa5, 0x72, 0xc0, 0x9c))
    ensures RoundKey(key, 3) == Cols(Word(0x16, 0x51, 0xa8, 0xcd), Word(0x02, 0x44, 0xbe, 0xda),
                                     Word(0x1a, 0x5d, 0xa4, 0xc1), Word(0x06, 0x40, 0xba, 0xde))
    ensures RoundKey(key, 4) == Cols(Word(0xae, 0x87, 0xdf, 0xf0), Word(0x0f, 0xf1, 0x1b, 0x68),
                                     Word(0xa6, 0x8e, 0xd5, 0xfb), Word(0x03, 0xfc, 0x15, 0x67))
    ensures RoundKey(key, 5) == Cols(Word(0x6d, 0xe1, 0xf1, 0x48), Word(0x6f, 0xa5, 0x4f, 0x92),
                                     Word(0x75, 0xf8, 0xeb, 0x53), Word(0x73, 0xb8, 0x51, 0x8d))
    ensures RoundKey(key, 6) == Cols(Word(0xc6, 0x56, 0x82, 0x7f), Word(0xc9, 0xa7, 0x99, 0x17),
                                     Word(0x6f, 0x29, 0x4c, 0xec), Word(0x6c, 0xd5, 0x59, 0x8b))
    ensures RoundKey(key, 7) == Cols(Word(0x3d, 0xe2, 0x3a, 0x75), Word(0x52, 0x47, 0x75, 0xe7),
                                     Word(0x27, 0xbf, 0x9e, 0xb4), Word(0x54, 0x07, 0xcf, 0x39))
    ensures RoundKey(key, 8) == Cols(Word(0x0b, 0xdc, 0x90, 0x5f), Word(0xc2, 0x7b, 0x09, 0x48),
                                     Word(0xad, 0x52, 0x45, 0xa4), Word(0xc1, 0x87, 0x1c, 0x2f))
    ensures RoundKey(key, 9) == Cols(Word(0x45, 0xf5, 0xa6, 0x60), Word(0x17, 0xb2, 0xd3, 0x87),
                                     Word(0x30, 0x0d, 0x4d, 0x33), Word(0x64, 0x0a, 0x82, 0x0a))
    ensures RoundKey(key, 10) == Cols(Word(0x7c, 0xcf, 0xf7, 0x1c), Word(0xbe, 0xb4, 0xfe, 0x54),
                                      Word(0x13, 0xe6, 0xbb, 0xf0), Word(0xd2, 0x61, 0xa7, 0xdf))
    ensures RoundKey(key, 11) == Cols(Word(0xf0, 0x1a, 0xfa, 0xfe), Word(0xe7, 0xa8, 0x29, 0x79),
                                      Word(0xd7, 0xa5, 0x64, 0x4a), Word(0xb3, 0xaf, 0xe6, 0x40))
    ensures RoundKey(key, 12) == Cols(Word(0x25, 0x41, 0xfe, 0x71), Word(0x9b, 0xf5, 0x00, 0x25),
                                      Word(0x88, 0x13, 0xbb, 0xd5), Word(0x5a, 0x72, 0x1c, 0x0a))
    ensures RoundKey(key, 13) == Cols(Word(0x4e, 0x5a, 0x66, 0x99), Word(0xa9, 0xf2, 0x4f, 0xe0),
                                      Word(0x7e, 0x57, 0x2b, 0xaa), Word(0xcd, 0xf8, 0xcd, 0xea))
    ensures RoundKey(key, 14) == Cols(Word(0x24, 0xfc, 0x79, 0xcc), Word(0xbf, 0x09, 0x79, 0xe9),
                                      Word(0x37, 0x1a, 0xc2, 0x3c), Word(0x6d, 0x68, 0xde, 0x36))
  {
    hide NextKey, RoundKey, Shifted, MixedAll, Added;
    RoundKeyStep(key, 2);
    Round2();
    RoundKeyStep(key, 3);
    Round3();
    RoundKeyStep(key, 4);
    Round4();
    RoundKeyStep(key, 5);
    Round5();
    RoundKeyStep(key, 6);
    Round6();
    RoundKeyStep(key, 7);
    Round7();
    RoundKeyStep(key, 8);
    Round8();
    RoundKeyStep(key, 9);
    Round9();
    RoundKeyStep(key, 10);
    Round10();
    RoundKeyStep(key, 11);
    Round11();
    RoundKeyStep(key, 12);
    Round12();
    RoundKeyStep(key, 13);
    Round13();
    RoundKeyStep(key, 14);
    Round14();
  }

  lemma FromCols(s: Block)
    requires ColsOf(s) == Cols(Word(0x8e, 0xa2, 0xb7, 0xca), Word(0x51, 0x67, 0x45, 0xbf),
                                 Word(0xea, 0xfc, 0x49, 0x90), Word(0x4b, 0x49, 0x60, 0x89))
    ensures s == [0x8e, 0xa2, 0xb7, 0xca, 0x51, 0x67, 0x45, 0xbf, 0xea, 0xfc, 0x49, 0x90, 0x4b, 0x49, 0x60, 0x89]
  {}

  /** The ciphertext of appendix C.3. */
  lemma CipherExample()
    ensures Cipher(C3_INPUT, ExpandKey(C3)) ==
            [0x8e, 0xa2, 0xb7, 0xca, 0x51, 0x67, 0x45, 0xbf, 0xea, 0xfc, 0x49, 0x90, 0x4b, 0x49, 0x60, 0x89]
  {
    hide Cipher, FullRounds, ExpandKey, Shifted, MixedAll, Added, ColsOf, KeyOf, RoundKey, NextKey;
    var w := ExpandKey(C3);
    C3Start();
    C3Expanded(C3);
    ExpandedKey(C3, 0);
    FirstCols(C3_INPUT, w);
    ExpandedKey(C3, 1);
    RoundCols(C3_INPUT, w, 1);
    Round1();
    ExpandedKey(C3, 2);
    RoundCols(C3_INPUT, w, 2);
    Round2();
    ExpandedKey(C3, 3);
    RoundCols(C3_INPUT, w, 3);
    Round3();
    ExpandedKey(C3, 4);
    RoundCols(C3_INPUT, w, 4);
    Round4();
    ExpandedKey(C3, 5);
    RoundCols(C3_INPUT, w, 5);
    Round5();
    ExpandedKey(C3, 6);
    RoundCols(C3_INPUT, w, 6);
    Round6();
    ExpandedKey(C3, 7);
    RoundCols(C3_INPUT, w, 7);
    Round7();
    ExpandedKey(C3, 8);
    RoundCols(C3_INPUT, w, 8);
    Round8();
    ExpandedKey(C3, 9);
    RoundCols(C3_INPUT, w, 9);
    Round9();
    ExpandedKey(C3, 10);
    RoundCols(C3_INPUT, w, 10);
    Round10();
    ExpandedKey(C3, 11);
    RoundCols(C3_INPUT, w, 11);
    Round11();
    ExpandedKey(C3, 12);
    RoundCols(C3_INPUT, w, 12);
    Round12();
    ExpandedKey(C3, 13);
    RoundCols(C3_INPUT, w, 13);
    Round13();
    ExpandedKey(C3, 14);
    LastCols(C3_INPUT, w);
    Round14();
    FromCols(Cipher(C3_INPUT, w));
  }
}
