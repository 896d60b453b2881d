/** Lookup tables with byte entries, written out row by row. */
module Tables {
  type Octet = x: int | 0 <= x < 256

  /** A row of a table with sixteen entries. */
  function Pick(i: int, v0: Octet, v1: Octet, v2: Octet, v3: Octet, v4: Octet, v5: Octet, v6: Octet, v7: Octet,
                v8: Octet, v9: Octet, v10: Octet, v11: Octet, v12: Octet, v13: Octet, v14: Octet, v15: Octet): Octet {
    if i == 0 then v0 else if i == 1 then v1 else if i == 2 then v2 else if i == 3 then v3
    else if i == 4 then v4 else if i == 5 then v5 else if i == 6 then v6 else if i == 7 then v7
    else if i == 8 then v8 else if i == 9 then v9 else if i == 10 then v10 else if i == 11 then v11
    else if i == 12 then v12 else if i == 13 then v13 else if i == 14 then v14 else v15
  }
}
