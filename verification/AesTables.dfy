/** The byte substitution tables of FIPS 197, Figures 7 and 14, as the kernel lists them. */
module AesTables {
  import opened Wrappers

  function Sbox(n: Byte): Byte {
    if n < 0x10 then (
      if n == 0x00 then 0x63 else if n == 0x01 then 0x7c else if n == 0x02 then 0x77 else if n == 0x03 then 0x7b else
      if n == 0x04 then 0xf2 else if n == 0x05 then 0x6b else if n == 0x06 then 0x6f else if n == 0x07 then 0xc5 else
      if n == 0x08 then 0x30 else if n == 0x09 then 0x01 else if n == 0x0a then 0x67 else if n == 0x0b then 0x2b else
      if n == 0x0c then 0xfe else if n == 0x0d then 0xd7 else if n == 0x0e then 0xab else 0x76)
    else if n < 0x20 then (
      if n == 0x10 then 0xca else if n == 0x11 then 0x82 else if n == 0x12 then 0xc9 else if n == 0x13 then 0x7d else
      if n == 0x14 then 0xfa else if n == 0x15 then 0x59 else if n == 0x16 then 0x47 else if n == 0x17 then 0xf0 else
      if n == 0x18 then 0xad else if n == 0x19 then 0xd4 else if n == 0x1a then 0xa2 else if n == 0x1b then 0xaf else
      if n == 0x1c then 0x9c else if n == 0x1d then 0xa4 else if n == 0x1e then 0x72 else 0xc0)
    else if n < 0x30 then (
      if n == 0x20 then 0xb7 else if n == 0x21 then 0xfd else if n == 0x22 then 0x93 else if n == 0x23 then 0x26 else
      if n == 0x24 then 0x36 else if n == 0x25 then 0x3f else if n == 0x26 then 0xf7 else if n == 0x27 then 0xcc else
      if n == 0x28 then 0x34 else if n == 0x29 then 0xa5 else if n == 0x2a then 0xe5 else if n == 0x2b then 0xf1 else
      if n == 0x2c then 0x71 else if n == 0x2d then 0xd8 else if n == 0x2e then 0x31 else 0x15)
    else if n < 0x40 then (
      if n == 0x30 then 0x04 else if n == 0x31 then 0xc7 else if n == 0x32 then 0x23 else if n == 0x33 then 0xc3 else
      if n == 0x34 then 0x18 else if n == 0x35 then 0x96 else if n == 0x36 then 0x05 else if n == 0x37 then 0x9a else
      if n == 0x38 then 0x07 else if n == 0x39 then 0x12 else if n == 0x3a then 0x80 else if n == 0x3b then 0xe2 else
      if n == 0x3c then 0xeb else if n == 0x3d then 0x27 else if n == 0x3e then 0xb2 else 0x75)
    else if n < 0x50 then (
      if n == 0x40 then 0x09 else if n == 0x41 then 0x83 else if n == 0x42 then 0x2c else if n == 0x43 then 0x1a else
      if n == 0x44 then 0x1b else if n == 0x45 then 0x6e else if n == 0x46 then 0x5a else if n == 0x47 then 0xa0 else
      if n == 0x48 then 0x52 else if n == 0x49 then 0x3b else if n == 0x4a then 0xd6 else if n == 0x4b then 0xb3 else
      if n == 0x4c then 0x29 else if n == 0x4d then 0xe3 else if n == 0x4e then 0x2f else 0x84)
    else if n < 0x60 then (
      if n == 0x50 then 0x53 else if n == 0x51 then 0xd1 else if n == 0x52 then 0x00 else if n == 0x53 then 0xed else
      if n == 0x54 then 0x20 else if n == 0x55 then 0xfc else if n == 0x56 then 0xb1 else if n == 0x57 then 0x5b else
      if n == 0x58 then 0x6a else if n == 0x59 then 0xcb else if n == 0x5a then 0xbe else if n == 0x5b then 0x39 else
      if n == 0x5c then 0x4a else if n == 0x5d then 0x4c else if n == 0x5e then 0x58 else 0xcf)
    else if n < 0x70 then (
      if n == 0x60 then 0xd0 else if n == 0x61 then 0xef else if n == 0x62 then 0xaa else if n == 0x63 then 0xfb else
      if n == 0x64 then 0x43 else if n == 0x65 then 0x4d else if n == 0x66 then 0x33 else if n == 0x67 then 0x85 else
      if n == 0x68 then 0x45 else if n == 0x69 then 0xf9 else if n == 0x6a then 0x02 else if n == 0x6b then 0x7f else
      if n == 0x6c then 0x50 else if n == 0x6d then 0x3c else if n == 0x6e then 0x9f else 0xa8)
    else if n < 0x80 then (
      if n == 0x70 then 0x51 else if n == 0x71 then 0xa3 else if n == 0x72 then 0x40 else if n == 0x73 then 0x8f else
      if n == 0x74 then 0x92 else if n == 0x75 then 0x9d else if n == 0x76 then 0x38 else if n == 0x77 then 0xf5 else
      if n == 0x78 then 0xbc else if n == 0x79 then 0xb6 else if n == 0x7a then 0xda else if n == 0x7b then 0x21 else
      if n == 0x7c then 0x10 else if n == 0x7d then 0xff else if n == 0x7e then 0xf3 else 0xd2)
    else if n < 0x90 then (
      if n == 0x80 then 0xcd else if n == 0x81 then 0x0c else if n == 0x82 then 0x13 else if n == 0x83 then 0xec else
      if n == 0x84 then 0x5f else if n == 0x85 then 0x97 else if n == 0x86 then 0x44 else if n == 0x87 then 0x17 else
      if n == 0x88 then 0xc4 else if n == 0x89 then 0xa7 else if n == 0x8a then 0x7e else if n == 0x8b then 0x3d else
      if n == 0x8c then 0x64 else if n == 0x8d then 0x5d else if n == 0x8e then 0x19 else 0x73)
    else if n < 0xa0 then (
      if n == 0x90 then 0x60 else if n == 0x91 then 0x81 else if n == 0x92 then 0x4f else if n == 0x93 then 0xdc else
      if n == 0x94 then 0x22 else if n == 0x95 then 0x2a else if n == 0x96 then 0x90 else if n == 0x97 then 0x88 else
      if n == 0x98 then 0x46 else if n == 0x99 then 0xee else if n == 0x9a then 0xb8 else if n == 0x9b then 0x14 else
      if n == 0x9c then 0xde else if n == 0x9d then 0x5e else if n == 0x9e then 0x0b else 0xdb)
    else if n < 0xb0 then (
      if n == 0xa0 then 0xe0 else if n == 0xa1 then 0x32 else if n == 0xa2 then 0x3a else if n == 0xa3 then 0x0a else
      if n == 0xa4 then 0x49 else if n == 0xa5 then 0x06 else if n == 0xa6 then 0x24 else if n == 0xa7 then 0x5c else
      if n == 0xa8 then 0xc2 else if n == 0xa9 then 0xd3 else if n == 0xaa then 0xac else if n == 0xab then 0x62 else
      if n == 0xac then 0x91 else if n == 0xad then 0x95 else if n == 0xae then 0xe4 else 0x79)
    else if n < 0xc0 then (
      if n == 0xb0 then 0xe7 else if n == 0xb1 then 0xc8 else if n == 0xb2 then 0x37 else if n == 0xb3 then 0x6d else
      if n == 0xb4 then 0x8d else if n == 0xb5 then 0xd5 else if n == 0xb6 then 0x4e else if n == 0xb7 then 0xa9 else
      if n == 0xb8 then 0x6c else if n == 0xb9 then 0x56 else if n == 0xba then 0xf4 else if n == 0xbb then 0xea else
      if n == 0xbc then 0x65 else if n == 0xbd then 0x7a else if n == 0xbe then 0xae else 0x08)
    else if n < 0xd0 then (
      if n == 0xc0 then 0xba else if n == 0xc1 then 0x78 else if n == 0xc2 then 0x25 else if n == 0xc3 then 0x2e else
      if n == 0xc4 then 0x1c else if n == 0xc5 then 0xa6 else if n == 0xc6 then 0xb4 else if n == 0xc7 then 0xc6 else
      if n == 0xc8 then 0xe8 else if n == 0xc9 then 0xdd else if n == 0xca then 0x74 else if n == 0xcb then 0x1f else
      if n == 0xcc then 0x4b else if n == 0xcd then 0xbd else if n == 0xce then 0x8b else 0x8a)
    else if n < 0xe0 then (
      if n == 0xd0 then 0x70 else if n == 0xd1 then 0x3e else if n == 0xd2 then 0xb5 else if n == 0xd3 then 0x66 else
      if n == 0xd4 then 0x48 else if n == 0xd5 then 0x03 else if n == 0xd6 then 0xf6 else if n == 0xd7 then 0x0e else
      if n == 0xd8 then 0x61 else if n == 0xd9 then 0x35 else if n == 0xda then 0x57 else if n == 0xdb then 0xb9 else
      if n == 0xdc then 0x86 else if n == 0xdd then 0xc1 else if n == 0xde then 0x1d else 0x9e)
    else if n < 0xf0 then (
      if n == 0xe0 then 0xe1 else if n == 0xe1 then 0xf8 else if n == 0xe2 then 0x98 else if n == 0xe3 then 0x11 else
      if n == 0xe4 then 0x69 else if n == 0xe5 then 0xd9 else if n == 0xe6 then 0x8e else if n == 0xe7 then 0x94 else
      if n == 0xe8 then 0x9b else if n == 0xe9 then 0x1e else if n == 0xea then 0x87 else if n == 0xeb then 0xe9 else
      if n == 0xec then 0xce else if n == 0xed then 0x55 else if n == 0xee then 0x28 else 0xdf)
    else (
      if n == 0xf0 then 0x8c else if n == 0xf1 then 0xa1 else if n == 0xf2 then 0x89 else if n == 0xf3 then 0x0d else
      if n == 0xf4 then 0xbf else if n == 0xf5 then 0xe6 else if n == 0xf6 then 0x42 else if n == 0xf7 then 0x68 else
      if n == 0xf8 then 0x41 else if n == 0xf9 then 0x99 else if n == 0xfa then 0x2d else if n == 0xfb then 0x0f else
      if n == 0xfc then 0xb0 else if n == 0xfd then 0x54 else if n == 0xfe then 0xbb else 0x16)
  }

  function Rsbox(n: Byte): Byte {
    if n < 0x10 then (
      if n == 0x00 then 0x52 else if n == 0x01 then 0x09 else if n == 0x02 then 0x6a else if n == 0x03 then 0xd5 else
      if n == 0x04 then 0x30 else if n == 0x05 then 0x36 else if n == 0x06 then 0xa5 else if n == 0x07 then 0x38 else
      if n == 0x08 then 0xbf else if n == 0x09 then 0x40 else if n == 0x0a then 0xa3 else if n == 0x0b then 0x9e else
      if n == 0x0c then 0x81 else if n == 0x0d then 0xf3 else if n == 0x0e then 0xd7 else 0xfb)
    else if n < 0x20 then (
      if n == 0x10 then 0x7c else if n == 0x11 then 0xe3 else if n == 0x12 then 0x39 else if n == 0x13 then 0x82 else
      if n == 0x14 then 0x9b else if n == 0x15 then 0x2f else if n == 0x16 then 0xff else if n == 0x17 then 0x87 else
      if n == 0x18 then 0x34 else if n == 0x19 then 0x8e else if n == 0x1a then 0x43 else if n == 0x1b then 0x44 else
      if n == 0x1c then 0xc4 else if n == 0x1d then 0xde else if n == 0x1e then 0xe9 else 0xcb)
    else if n < 0x30 then (
      if n == 0x20 then 0x54 else if n == 0x21 then 0x7b else if n == 0x22 then 0x94 else if n == 0x23 then 0x32 else
      if n == 0x24 then 0xa6 else if n == 0x25 then 0xc2 else if n == 0x26 then 0x23 else if n == 0x27 then 0x3d else
      if n == 0x28 then 0xee else if n == 0x29 then 0x4c else if n == 0x2a then 0x95 else if n == 0x2b then 0x0b else
      if n == 0x2c then 0x42 else if n == 0x2d then 0xfa else if n == 0x2e then 0xc3 else 0x4e)
    else if n < 0x40 then (
      if n == 0x30 then 0x08 else if n == 0x31 then 0x2e else if n == 0x32 then 0xa1 else if n == 0x33 then 0x66 else
      if n == 0x34 then 0x28 else if n == 0x35 then 0xd9 else if n == 0x36 then 0x24 else if n == 0x37 then 0xb2 else
      if n == 0x38 then 0x76 else if n == 0x39 then 0x5b else if n == 0x3a then 0xa2 else if n == 0x3b then 0x49 else
      if n == 0x3c then 0x6d else if n == 0x3d then 0x8b else if n == 0x3e then 0xd1 else 0x25)
    else if n < 0x50 then (
      if n == 0x40 then 0x72 else if n == 0x41 then 0xf8 else if n == 0x42 then 0xf6 else if n == 0x43 then 0x64 else
      if n == 0x44 then 0x86 else if n == 0x45 then 0x68 else if n == 0x46 then 0x98 else if n == 0x47 then 0x16 else
      if n == 0x48 then 0xd4 else if n == 0x49 then 0xa4 else if n == 0x4a then 0x5c else if n == 0x4b then 0xcc else
      if n == 0x4c then 0x5d else if n == 0x4d then 0x65 else if n == 0x4e then 0xb6 else 0x92)
    else if n < 0x60 then (
      if n == 0x50 then 0x6c else if n == 0x51 then 0x70 else if n == 0x52 then 0x48 else if n == 0x53 then 0x50 else
      if n == 0x54 then 0xfd else if n == 0x55 then 0xed else if n == 0x56 then 0xb9 else if n == 0x57 then 0xda else
      if n == 0x58 then 0x5e else if n == 0x59 then 0x15 else if n == 0x5a then 0x46 else if n == 0x5b then 0x57 else
      if n == 0x5c then 0xa7 else if n == 0x5d then 0x8d else if n == 0x5e then 0x9d else 0x84)
    else if n < 0x70 then (
      if n == 0x60 then 0x90 else if n == 0x61 then 0xd8 else if n == 0x62 then 0xab else if n == 0x63 then 0x00 else
      if n == 0x64 then 0x8c else if n == 0x65 then 0xbc else if n == 0x66 then 0xd3 else if n == 0x67 then 0x0a else
      if n == 0x68 then 0xf7 else if n == 0x69 then 0xe4 else if n == 0x6a then 0x58 else if n == 0x6b then 0x05 else
      if n == 0x6c then 0xb8 else if n == 0x6d then 0xb3 else if n == 0x6e then 0x45 else 0x06)
    else if n < 0x80 then (
      if n == 0x70 then 0xd0 else if n == 0x71 then 0x2c else if n == 0x72 then 0x1e else if n == 0x73 then 0x8f else
      if n == 0x74 then 0xca else if n == 0x75 then 0x3f else if n == 0x76 then 0x0f else if n == 0x77 then 0x02 else
      if n == 0x78 then 0xc1 else if n == 0x79 then 0xaf else if n == 0x7a then 0xbd else if n == 0x7b then 0x03 else
      if n == 0x7c then 0x01 else if n == 0x7d then 0x13 else if n == 0x7e then 0x8a else 0x6b)
    else if n < 0x90 then (
      if n == 0x80 then 0x3a else if n == 0x81 then 0x91 else if n == 0x82 then 0x11 else if n == 0x83 then 0x41 else
      if n == 0x84 then 0x4f else if n == 0x85 then 0x67 else if n == 0x86 then 0xdc else if n == 0x87 then 0xea else
      if n == 0x88 then 0x97 else if n == 0x89 then 0xf2 else if n == 0x8a then 0xcf else if n == 0x8b then 0xce else
      if n == 0x8c then 0xf0 else if n == 0x8d then 0xb4 else if n == 0x8e then 0xe6 else 0x73)
    else if n < 0xa0 then (
      if n == 0x90 then 0x96 else if n == 0x91 then 0xac else if n == 0x92 then 0x74 else if n == 0x93 then 0x22 else
      if n == 0x94 then 0xe7 else if n == 0x95 then 0xad else if n == 0x96 then 0x35 else if n == 0x97 then 0x85 else
      if n == 0x98 then 0xe2 else if n == 0x99 then 0xf9 else if n == 0x9a then 0x37 else if n == 0x9b then 0xe8 else
      if n == 0x9c then 0x1c else if n == 0x9d then 0x75 else if n == 0x9e then 0xdf else 0x6e)
    else if n < 0xb0 then (
      if n == 0xa0 then 0x47 else if n == 0xa1 then 0xf1 else if n == 0xa2 then 0x1a else if n == 0xa3 then 0x71 else
      if n == 0xa4 then 0x1d else if n == 0xa5 then 0x29 else if n == 0xa6 then 0xc5 else if n == 0xa7 then 0x89 else
      if n == 0xa8 then 0x6f else if n == 0xa9 then 0xb7 else if n == 0xaa then 0x62 else if n == 0xab then 0x0e else
      if n == 0xac then 0xaa else if n == 0xad then 0x18 else if n == 0xae then 0xbe else 0x1b)
    else if n < 0xc0 then (
      if n == 0xb0 then 0xfc else if n == 0xb1 then 0x56 else if n == 0xb2 then 0x3e else if n == 0xb3 then 0x4b else
      if n == 0xb4 then 0xc6 else if n == 0xb5 then 0xd2 else if n == 0xb6 then 0x79 else if n == 0xb7 then 0x20 else
      if n == 0xb8 then 0x9a else if n == 0xb9 then 0xdb else if n == 0xba then 0xc0 else if n == 0xbb then 0xfe else
      if n == 0xbc then 0x78 else if n == 0xbd then 0xcd else if n == 0xbe then 0x5a else 0xf4)
    else if n < 0xd0 then (
      if n == 0xc0 then 0x1f else if n == 0xc1 then 0xdd else if n == 0xc2 then 0xa8 else if n == 0xc3 then 0x33 else
      if n == 0xc4 then 0x88 else if n == 0xc5 then 0x07 else if n == 0xc6 then 0xc7 else if n == 0xc7 then 0x31 else
      if n == 0xc8 then 0xb1 else if n == 0xc9 then 0x12 else if n == 0xca then 0x10 else if n == 0xcb then 0x59 else
      if n == 0xcc then 0x27 else if n == 0xcd then 0x80 else if n == 0xce then 0xec else 0x5f)
    else if n < 0xe0 then (
      if n == 0xd0 then 0x60 else if n == 0xd1 then 0x51 else if n == 0xd2 then 0x7f else if n == 0xd3 then 0xa9 else
      if n == 0xd4 then 0x19 else if n == 0xd5 then 0xb5 else if n == 0xd6 then 0x4a else if n == 0xd7 then 0x0d else
      if n == 0xd8 then 0x2d else if n == 0xd9 then 0xe5 else if n == 0xda then 0x7a else if n == 0xdb then 0x9f else
      if n == 0xdc then 0x93 else if n == 0xdd then 0xc9 else if n == 0xde then 0x9c else 0xef)
    else if n < 0xf0 then (
      if n == 0xe0 then 0xa0 else if n == 0xe1 then 0xe0 else if n == 0xe2 then 0x3b else if n == 0xe3 then 0x4d else
      if n == 0xe4 then 0xae else if n == 0xe5 then 0x2a else if n == 0xe6 then 0xf5 else if n == 0xe7 then 0xb0 else
      if n == 0xe8 then 0xc8 else if n == 0xe9 then 0xeb else if n == 0xea then 0xbb else if n == 0xeb then 0x3c else
      if n == 0xec then 0x83 else if n == 0xed then 0x53 else if n == 0xee then 0x99 else 0x61)
    else (
      if n == 0xf0 then 0x17 else if n == 0xf1 then 0x2b else if n == 0xf2 then 0x04 else if n == 0xf3 then 0x7e else
      if n == 0xf4 then 0xba else if n == 0xf5 then 0x77 else if n == 0xf6 then 0xd6 else if n == 0xf7 then 0x26 else
      if n == 0xf8 then 0xe1 else if n == 0xf9 then 0x69 else if n == 0xfa then 0x14 else if n == 0xfb then 0x63 else
      if n == 0xfc then 0x55 else if n == 0xfd then 0x21 else if n == 0xfe then 0x0c else 0x7d)
  }

  predicate Pair(n: Byte, v: Byte) { Sbox(n) == v && Rsbox(v) == n }

  lemma Undone00(n: Byte)
    requires 0x00 <= n < 0x10
    ensures Rsbox(Sbox(n)) == n
  {
    match n
    case 0x00 => assert Pair(0x00, 0x63); case 0x01 => assert Pair(0x01, 0x7c); case 0x02 => assert Pair(0x02, 0x77); case 0x03 => assert Pair(0x03, 0x7b);
    case 0x04 => assert Pair(0x04, 0xf2); case 0x05 => assert Pair(0x05, 0x6b); case 0x06 => assert Pair(0x06, 0x6f); case 0x07 => assert Pair(0x07, 0xc5);
    case 0x08 => assert Pair(0x08, 0x30); case 0x09 => assert Pair(0x09, 0x01); case 0x0a => assert Pair(0x0a, 0x67); case 0x0b => assert Pair(0x0b, 0x2b);
    case 0x0c => assert Pair(0x0c, 0xfe); case 0x0d => assert Pair(0x0d, 0xd7); case 0x0e => assert Pair(0x0e, 0xab); case _ => assert Pair(0x0f, 0x76);
  }

  lemma Undone10(n: Byte)
    requires 0x10 <= n < 0x20
    ensures Rsbox(Sbox(n)) == n
  {
    match n
    case 0x10 => assert Pair(0x10, 0xca); case 0x11 => assert Pair(0x11, 0x82); case 0x12 => assert Pair(0x12, 0xc9); case 0x13 => assert Pair(0x13, 0x7d);
    case 0x14 => assert Pair(0x14, 0xfa); case 0x15 => assert Pair(0x15, 0x59); case 0x16 => assert Pair(0x16, 0x47); case 0x17 => assert Pair(0x17, 0xf0);
    case 0x18 => assert Pair(0x18, 0xad); case 0x19 => assert Pair(0x19, 0xd4); case 0x1a => assert Pair(0x1a, 0xa2); case 0x1b => assert Pair(0x1b, 0xaf);
    case 0x1c => assert Pair(0x1c, 0x9c); case 0x1d => assert Pair(0x1d, 0xa4); case 0x1e => assert Pair(0x1e, 0x72); case _ => assert Pair(0x1f, 0xc0);
  }

  lemma Undone20(n: Byte)
    requires 0x20 <= n < 0x30
    ensures Rsbox(Sbox(n)) == n
  {
    match n
    case 0x20 => assert Pair(0x20, 0xb7); case 0x21 => assert Pair(0x21, 0xfd); case 0x22 => assert Pair(0x22, 0x93); case 0x23 => assert Pair(0x23, 0x26);
    case 0x24 => assert Pair(0x24, 0x36); case 0x25 => assert Pair(0x25, 0x3f); case 0x26 => assert Pair(0x26, 0xf7); case 0x27 => assert Pair(0x27, 0xcc);
    case 0x28 => assert Pair(0x28, 0x34); case 0x29 => assert Pair(0x29, 0xa5); case 0x2a => assert Pair(0x2a, 0xe5); case 0x2b => assert Pair(0x2b, 0xf1);
    case 0x2c => assert Pair(0x2c, 0x71); case 0x2d => assert Pair(0x2d, 0xd8); case 0x2e => assert Pair(0x2e, 0x31); case _ => assert Pair(0x2f, 0x15);
  }

  lemma Undone30(n: Byte)
    requires 0x30 <= n < 0x40
    ensures Rsbox(Sbox(n)) == n
  {
    match n
    case 0x30 => assert Pair(0x30, 0x04); case 0x31 => assert Pair(0x31, 0xc7); case 0x32 => assert Pair(0x32, 0x23); case 0x33 => assert Pair(0x33, 0xc3);
    case 0x34 => assert Pair(0x34, 0x18); case 0x35 => assert Pair(0x35, 0x96); case 0x36 => assert Pair(0x36, 0x05); case 0x37 => assert Pair(0x37, 0x9a);
    case 0x38 => assert Pair(0x38, 0x07); case 0x39 => assert Pair(0x39, 0x12); case 0x3a => assert Pair(0x3a, 0x80); case 0x3b => assert Pair(0x3b, 0xe2);
    case 0x3c => assert Pair(0x3c, 0xeb); case 0x3d => assert Pair(0x3d, 0x27); case 0x3e => assert Pair(0x3e, 0xb2); case _ => assert Pair(0x3f, 0x75);
  }

  lemma Undone40(n: Byte)
    requires 0x40 <= n < 0x50
    ensures Rsbox(Sbox(n)) == n
  {
    match n
    case 0x40 => assert Pair(0x40, 0x09); case 0x41 => assert Pair(0x41, 0x83); case 0x42 => assert Pair(0x42, 0x2c); case 0x43 => assert Pair(0x43, 0x1a);
    case 0x44 => assert Pair(0x44, 0x1b); case 0x45 => assert Pair(0x45, 0x6e); case 0x46 => assert Pair(0x46, 0x5a); case 0x47 => assert Pair(0x47, 0xa0);
    case 0x48 => assert Pair(0x48, 0x52); case 0x49 => assert Pair(0x49, 0x3b); case 0x4a => assert Pair(0x4a, 0xd6); case 0x4b => assert Pair(0x4b, 0xb3);
    case 0x4c => assert Pair(0x4c, 0x29); case 0x4d => assert Pair(0x4d, 0xe3); case 0x4e => assert Pair(0x4e, 0x2f); case _ => assert Pair(0x4f, 0x84);
  }

  lemma Undone50(n: Byte)
    requires 0x50 <= n < 0x60
    ensures Rsbox(Sbox(n)) == n
  {
    match n
    case 0x50 => assert Pair(0x50, 0x53); case 0x51 => assert Pair(0x51, 0xd1); case 0x52 => assert Pair(0x52, 0x00); case 0x53 => assert Pair(0x53, 0xed);
    case 0x54 => assert Pair(0x54, 0x20); case 0x55 => assert Pair(0x55, 0xfc); case 0x56 => assert Pair(0x56, 0xb1); case 0x57 => assert Pair(0x57, 0x5b);
    case 0x58 => assert Pair(0x58, 0x6a); case 0x59 => assert Pair(0x59, 0xcb); case 0x5a => assert Pair(0x5a, 0xbe); case 0x5b => assert Pair(0x5b, 0x39);
    case 0x5c => assert Pair(0x5c, 0x4a); case 0x5d => assert Pair(0x5d, 0x4c); case 0x5e => assert Pair(0x5e, 0x58); case _ => assert Pair(0x5f, 0xcf);
  }

  lemma Undone60(n: Byte)
    requires 0x60 <= n < 0x70
    ensures Rsbox(Sbox(n)) == n
  {
    match n
    case 0x60 => assert Pair(0x60, 0xd0); case 0x61 => assert Pair(0x61, 0xef); case 0x62 => assert Pair(0x62, 0xaa); case 0x63 => assert Pair(0x63, 0xfb);
    case 0x64 => assert Pair(0x64, 0x43); case 0x65 => assert Pair(0x65, 0x4d); case 0x66 => assert Pair(0x66, 0x33); case 0x67 => assert Pair(0x67, 0x85);
    case 0x68 => assert Pair(0x68, 0x45); case 0x69 => assert Pair(0x69, 0xf9); case 0x6a => assert Pair(0x6a, 0x02); case 0x6b => assert Pair(0x6b, 0x7f);
    case 0x6c => assert Pair(0x6c, 0x50); case 0x6d => assert Pair(0x6d, 0x3c); case 0x6e => assert Pair(0x6e, 0x9f); case _ => assert Pair(0x6f, 0xa8);
  }

  lemma Undone70(n: Byte)
    requires 0x70 <= n < 0x80
    ensures Rsbox(Sbox(n)) == n
  {
    match n
    case 0x70 => assert Pair(0x70, 0x51); case 0x71 => assert Pair(0x71, 0xa3); case 0x72 => assert Pair(0x72, 0x40); case 0x73 => assert Pair(0x73, 0x8f);
    case 0x74 => assert Pair(0x74, 0x92); case 0x75 => assert Pair(0x75, 0x9d); case 0x76 => assert Pair(0x76, 0x38); case 0x77 => assert Pair(0x77, 0xf5);
    case 0x78 => assert Pair(0x78, 0xbc); case 0x79 => assert Pair(0x79, 0xb6); case 0x7a => assert Pair(0x7a, 0xda); case 0x7b => assert Pair(0x7b, 0x21);
    case 0x7c => assert Pair(0x7c, 0x10); case 0x7d => assert Pair(0x7d, 0xff); case 0x7e => assert Pair(0x7e, 0xf3); case _ => assert Pair(0x7f, 0xd2);
  }

  lemma Undone80(n: Byte)
    requires 0x80 <= n < 0x90
    ensures Rsbox(Sbox(n)) == n
  {
    match n
    case 0x80 => assert Pair(0x80, 0xcd); case 0x81 => assert Pair(0x81, 0x0c); case 0x82 => assert Pair(0x82, 0x13); case 0x83 => assert Pair(0x83, 0xec);
    case 0x84 => assert Pair(0x84, 0x5f); case 0x85 => assert Pair(0x85, 0x97); case 0x86 => assert Pair(0x86, 0x44); case 0x87 => assert Pair(0x87, 0x17);
    case 0x88 => assert Pair(0x88, 0xc4); case 0x89 => assert Pair(0x89, 0xa7); case 0x8a => assert Pair(0x8a, 0x7e); case 0x8b => assert Pair(0x8b, 0x3d);
    case 0x8c => assert Pair(0x8c, 0x64); case 0x8d => assert Pair(0x8d, 0x5d); case 0x8e => assert Pair(0x8e, 0x19); case _ => assert Pair(0x8f, 0x73);
  }

  lemma Undone90(n: Byte)
    requires 0x90 <= n < 0xa0
    ensures Rsbox(Sbox(n)) == n
  {
    match n
    case 0x90 => assert Pair(0x90, 0x60); case 0x91 => assert Pair(0x91, 0x81); case 0x92 => assert Pair(0x92, 0x4f); case 0x93 => assert Pair(0x93, 0xdc);
    case 0x94 => assert Pair(0x94, 0x22); case 0x95 => assert Pair(0x95, 0x2a); case 0x96 => assert Pair(0x96, 0x90); case 0x97 => assert Pair(0x97, 0x88);
    case 0x98 => assert Pair(0x98, 0x46); case 0x99 => assert Pair(0x99, 0xee); case 0x9a => assert Pair(0x9a, 0xb8); case 0x9b => assert Pair(0x9b, 0x14);
    case 0x9c => assert Pair(0x9c, 0xde); case 0x9d => assert Pair(0x9d, 0x5e); case 0x9e => assert Pair(0x9e, 0x0b); case _ => assert Pair(0x9f, 0xdb);
  }

  lemma UndoneA0(n: Byte)
    requires 0xa0 <= n < 0xb0
    ensures Rsbox(Sbox(n)) == n
  {
    match n
    case 0xa0 => assert Pair(0xa0, 0xe0); case 0xa1 => assert Pair(0xa1, 0x32); case 0xa2 => assert Pair(0xa2, 0x3a); case 0xa3 => assert Pair(0xa3, 0x0a);
    case 0xa4 => assert Pair(0xa4, 0x49); case 0xa5 => assert Pair(0xa5, 0x06); case 0xa6 => assert Pair(0xa6, 0x24); case 0xa7 => assert Pair(0xa7, 0x5c);
    case 0xa8 => assert Pair(0xa8, 0xc2); case 0xa9 => assert Pair(0xa9, 0xd3); case 0xaa => assert Pair(0xaa, 0xac); case 0xab => assert Pair(0xab, 0x62);
    case 0xac => assert Pair(0xac, 0x91); case 0xad => assert Pair(0xad, 0x95); case 0xae => assert Pair(0xae, 0xe4); case _ => assert Pair(0xaf, 0x79);
  }

  lemma UndoneB0(n: Byte)
    requires 0xb0 <= n < 0xc0
    ensures Rsbox(Sbox(n)) == n
  {
    match n
    case 0xb0 => assert Pair(0xb0, 0xe7); case 0xb1 => assert Pair(0xb1, 0xc8); case 0xb2 => assert Pair(0xb2, 0x37); case 0xb3 => assert Pair(0xb3, 0x6d);
    case 0xb4 => assert Pair(0xb4, 0x8d); case 0xb5 => assert Pair(0xb5, 0xd5); case 0xb6 => assert Pair(0xb6, 0x4e); case 0xb7 => assert Pair(0xb7, 0xa9);
    case 0xb8 => assert Pair(0xb8, 0x6c); case 0xb9 => assert Pair(0xb9, 0x56); case 0xba => assert Pair(0xba, 0xf4); case 0xbb => assert Pair(0xbb, 0xea);
    case 0xbc => assert Pair(0xbc, 0x65); case 0xbd => assert Pair(0xbd, 0x7a); case 0xbe => assert Pair(0xbe, 0xae); case _ => assert Pair(0xbf, 0x08);
  }

  lemma UndoneC0(n: Byte)
    requires 0xc0 <= n < 0xd0
    ensures Rsbox(Sbox(n)) == n
  {
    match n
    case 0xc0 => assert Pair(0xc0, 0xba); case 0xc1 => assert Pair(0xc1, 0x78); case 0xc2 => assert Pair(0xc2, 0x25); case 0xc3 => assert Pair(0xc3, 0x2e);
    case 0xc4 => assert Pair(0xc4, 0x1c); case 0xc5 => assert Pair(0xc5, 0xa6); case 0xc6 => assert Pair(0xc6, 0xb4); case 0xc7 => assert Pair(0xc7, 0xc6);
    case 0xc8 => assert Pair(0xc8, 0xe8); case 0xc9 => assert Pair(0xc9, 0xdd); case 0xca => assert Pair(0xca, 0x74); case 0xcb => assert Pair(0xcb, 0x1f);
    case 0xcc => assert Pair(0xcc, 0x4b); case 0xcd => assert Pair(0xcd, 0xbd); case 0xce => assert Pair(0xce, 0x8b); case _ => assert Pair(0xcf, 0x8a);
  }

  lemma UndoneD0(n: Byte)
    requires 0xd0 <= n < 0xe0
    ensures Rsbox(Sbox(n)) == n
  {
    match n
    case 0xd0 => assert Pair(0xd0, 0x70); case 0xd1 => assert Pair(0xd1, 0x3e); case 0xd2 => assert Pair(0xd2, 0xb5); case 0xd3 => assert Pair(0xd3, 0x66);
    case 0xd4 => assert Pair(0xd4, 0x48); case 0xd5 => assert Pair(0xd5, 0x03); case 0xd6 => assert Pair(0xd6, 0xf6); case 0xd7 => assert Pair(0xd7, 0x0e);
    case 0xd8 => assert Pair(0xd8, 0x61); case 0xd9 => assert Pair(0xd9, 0x35); case 0xda => assert Pair(0xda, 0x57); case 0xdb => assert Pair(0xdb, 0xb9);
    case 0xdc => assert Pair(0xdc, 0x86); case 0xdd => assert Pair(0xdd, 0xc1); case 0xde => assert Pair(0xde, 0x1d); case _ => assert Pair(0xdf, 0x9e);
  }

  lemma UndoneE0(n: Byte)
    requires 0xe0 <= n < 0xf0
    ensures Rsbox(Sbox(n)) == n
  {
    match n
    case 0xe0 => assert Pair(0xe0, 0xe1); case 0xe1 => assert Pair(0xe1, 0xf8); case 0xe2 => assert Pair(0xe2, 0x98); case 0xe3 => assert Pair(0xe3, 0x11);
    case 0xe4 => assert Pair(0xe4, 0x69); case 0xe5 => assert Pair(0xe5, 0xd9); case 0xe6 => assert Pair(0xe6, 0x8e); case 0xe7 => assert Pair(0xe7, 0x94);
    case 0xe8 => assert Pair(0xe8, 0x9b); case 0xe9 => assert Pair(0xe9, 0x1e); case 0xea => assert Pair(0xea, 0x87); case 0xeb => assert Pair(0xeb, 0xe9);
    case 0xec => assert Pair(0xec, 0xce); case 0xed => assert Pair(0xed, 0x55); case 0xee => assert Pair(0xee, 0x28); case _ => assert Pair(0xef, 0xdf);
  }

  lemma UndoneF0(n: Byte)
    requires 0xf0 <= n
    ensures Rsbox(Sbox(n)) == n
  {
    match n
    case 0xf0 => assert Pair(0xf0, 0x8c); case 0xf1 => assert Pair(0xf1, 0xa1); case 0xf2 => assert Pair(0xf2, 0x89); case 0xf3 => assert Pair(0xf3, 0x0d);
    case 0xf4 => assert Pair(0xf4, 0xbf); case 0xf5 => assert Pair(0xf5, 0xe6); case 0xf6 => assert Pair(0xf6, 0x42); case 0xf7 => assert Pair(0xf7, 0x68);
    case 0xf8 => assert Pair(0xf8, 0x41); case 0xf9 => assert Pair(0xf9, 0x99); case 0xfa => assert Pair(0xfa, 0x2d); case 0xfb => assert Pair(0xfb, 0x0f);
    case 0xfc => assert Pair(0xfc, 0xb0); case 0xfd => assert Pair(0xfd, 0x54); case 0xfe => assert Pair(0xfe, 0xbb); case _ => assert Pair(0xff, 0x16);
  }

  lemma Redone00(n: Byte)
    requires 0x00 <= n < 0x10
    ensures Sbox(Rsbox(n)) == n
  {
    match n
    case 0x00 => assert Pair(0x52, 0x00); case 0x01 => assert Pair(0x09, 0x01); case 0x02 => assert Pair(0x6a, 0x02); case 0x03 => assert Pair(0xd5, 0x03);
    case 0x04 => assert Pair(0x30, 0x04); case 0x05 => assert Pair(0x36, 0x05); case 0x06 => assert Pair(0xa5, 0x06); case 0x07 => assert Pair(0x38, 0x07);
    case 0x08 => assert Pair(0xbf, 0x08); case 0x09 => assert Pair(0x40, 0x09); case 0x0a => assert Pair(0xa3, 0x0a); case 0x0b => assert Pair(0x9e, 0x0b);
    case 0x0c => assert Pair(0x81, 0x0c); case 0x0d => assert Pair(0xf3, 0x0d); case 0x0e => assert Pair(0xd7, 0x0e); case _ => assert Pair(0xfb, 0x0f);
  }

  lemma Redone10(n: Byte)
    requires 0x10 <= n < 0x20
    ensures Sbox(Rsbox(n)) == n
  {
    match n
    case 0x10 => assert Pair(0x7c, 0x10); case 0x11 => assert Pair(0xe3, 0x11); case 0x12 => assert Pair(0x39, 0x12); case 0x13 => assert Pair(0x82, 0x13);
    case 0x14 => assert Pair(0x9b, 0x14); case 0x15 => assert Pair(0x2f, 0x15); case 0x16 => assert Pair(0xff, 0x16); case 0x17 => assert Pair(0x87, 0x17);
    case 0x18 => assert Pair(0x34, 0x18); case 0x19 => assert Pair(0x8e, 0x19); case 0x1a => assert Pair(0x43, 0x1a); case 0x1b => assert Pair(0x44, 0x1b);
    case 0x1c => assert Pair(0xc4, 0x1c); case 0x1d => assert Pair(0xde, 0x1d); case 0x1e => assert Pair(0xe9, 0x1e); case _ => assert Pair(0xcb, 0x1f);
  }

  lemma Redone20(n: Byte)
    requires 0x20 <= n < 0x30
    ensures Sbox(Rsbox(n)) == n
  {
    match n
    case 0x20 => assert Pair(0x54, 0x20); case 0x21 => assert Pair(0x7b, 0x21); case 0x22 => assert Pair(0x94, 0x22); case 0x23 => assert Pair(0x32, 0x23);
    case 0x24 => assert Pair(0xa6, 0x24); case 0x25 => assert Pair(0xc2, 0x25); case 0x26 => assert Pair(0x23, 0x26); case 0x27 => assert Pair(0x3d, 0x27);
    case 0x28 => assert Pair(0xee, 0x28); case 0x29 => assert Pair(0x4c, 0x29); case 0x2a => assert Pair(0x95, 0x2a); case 0x2b => assert Pair(0x0b, 0x2b);
    case 0x2c => assert Pair(0x42, 0x2c); case 0x2d => assert Pair(0xfa, 0x2d); case 0x2e => assert Pair(0xc3, 0x2e); case _ => assert Pair(0x4e, 0x2f);
  }

  lemma Redone30(n: Byte)
    requires 0x30 <= n < 0x40
    ensures Sbox(Rsbox(n)) == n
  {
    match n
    case 0x30 => assert Pair(0x08, 0x30); case 0x31 => assert Pair(0x2e, 0x31); case 0x32 => assert Pair(0xa1, 0x32); case 0x33 => assert Pair(0x66, 0x33);
    case 0x34 => assert Pair(0x28, 0x34); case 0x35 => assert Pair(0xd9, 0x35); case 0x36 => assert Pair(0x24, 0x36); case 0x37 => assert Pair(0xb2, 0x37);
    case 0x38 => assert Pair(0x76, 0x38); case 0x39 => assert Pair(0x5b, 0x39); case 0x3a => assert Pair(0xa2, 0x3a); case 0x3b => assert Pair(0x49, 0x3b);
    case 0x3c => assert Pair(0x6d, 0x3c); case 0x3d => assert Pair(0x8b, 0x3d); case 0x3e => assert Pair(0xd1, 0x3e); case _ => assert Pair(0x25, 0x3f);
  }

  lemma Redone40(n: Byte)
    requires 0x40 <= n < 0x50
    ensures Sbox(Rsbox(n)) == n
  {
    match n
    case 0x40 => assert Pair(0x72, 0x40); case 0x41 => assert Pair(0xf8, 0x41); case 0x42 => assert Pair(0xf6, 0x42); case 0x43 => assert Pair(0x64, 0x43);
    case 0x44 => assert Pair(0x86, 0x44); case 0x45 => assert Pair(0x68, 0x45); case 0x46 => assert Pair(0x98, 0x46); case 0x47 => assert Pair(0x16, 0x47);
    case 0x48 => assert Pair(0xd4, 0x48); case 0x49 => assert Pair(0xa4, 0x49); case 0x4a => assert Pair(0x5c, 0x4a); case 0x4b => assert Pair(0xcc, 0x4b);
    case 0x4c => assert Pair(0x5d, 0x4c); case 0x4d => assert Pair(0x65, 0x4d); case 0x4e => assert Pair(0xb6, 0x4e); case _ => assert Pair(0x92, 0x4f);
  }

  lemma Redone50(n: Byte)
    requires 0x50 <= n < 0x60
    ensures Sbox(Rsbox(n)) == n
  {
    match n
    case 0x50 => assert Pair(0x6c, 0x50); case 0x51 => assert Pair(0x70, 0x51); case 0x52 => assert Pair(0x48, 0x52); case 0x53 => assert Pair(0x50, 0x53);
    case 0x54 => assert Pair(0xfd, 0x54); case 0x55 => assert Pair(0xed, 0x55); case 0x56 => assert Pair(0xb9, 0x56); case 0x57 => assert Pair(0xda, 0x57);
    case 0x58 => assert Pair(0x5e, 0x58); case 0x59 => assert Pair(0x15, 0x59); case 0x5a => assert Pair(0x46, 0x5a); case 0x5b => assert Pair(0x57, 0x5b);
    case 0x5c => assert Pair(0xa7, 0x5c); case 0x5d => assert Pair(0x8d, 0x5d); case 0x5e => assert Pair(0x9d, 0x5e); case _ => assert Pair(0x84, 0x5f);
  }

  lemma Redone60(n: Byte)
    requires 0x60 <= n < 0x70
    ensures Sbox(Rsbox(n)) == n
  {
    match n
    case 0x60 => assert Pair(0x90, 0x60); case 0x61 => assert Pair(0xd8, 0x61); case 0x62 => assert Pair(0xab, 0x62); case 0x63 => assert Pair(0x00, 0x63);
    case 0x64 => assert Pair(0x8c, 0x64); case 0x65 => assert Pair(0xbc, 0x65); case 0x66 => assert Pair(0xd3, 0x66); case 0x67 => assert Pair(0x0a, 0x67);
    case 0x68 => assert Pair(0xf7, 0x68); case 0x69 => assert Pair(0xe4, 0x69); case 0x6a => assert Pair(0x58, 0x6a); case 0x6b => assert Pair(0x05, 0x6b);
    case 0x6c => assert Pair(0xb8, 0x6c); case 0x6d => assert Pair(0xb3, 0x6d); case 0x6e => assert Pair(0x45, 0x6e); case _ => assert Pair(0x06, 0x6f);
  }

  lemma Redone70(n: Byte)
    requires 0x70 <= n < 0x80
    ensures Sbox(Rsbox(n)) == n
  {
    match n
    case 0x70 => assert Pair(0xd0, 0x70); case 0x71 => assert Pair(0x2c, 0x71); case 0x72 => assert Pair(0x1e, 0x72); case 0x73 => assert Pair(0x8f, 0x73);
    case 0x74 => assert Pair(0xca, 0x74); case 0x75 => assert Pair(0x3f, 0x75); case 0x76 => assert Pair(0x0f, 0x76); case 0x77 => assert Pair(0x02, 0x77);
    case 0x78 => assert Pair(0xc1, 0x78); case 0x79 => assert Pair(0xaf, 0x79); case 0x7a => assert Pair(0xbd, 0x7a); case 0x7b => assert Pair(0x03, 0x7b);
    case 0x7c => assert Pair(0x01, 0x7c); case 0x7d => assert Pair(0x13, 0x7d); case 0x7e => assert Pair(0x8a, 0x7e); case _ => assert Pair(0x6b, 0x7f);
  }

  lemma Redone80(n: Byte)
    requires 0x80 <= n < 0x90
    ensures Sbox(Rsbox(n)) == n
  {
    match n
    case 0x80 => assert Pair(0x3a, 0x80); case 0x81 => assert Pair(0x91, 0x81); case 0x82 => assert Pair(0x11, 0x82); case 0x83 => assert Pair(0x41, 0x83);
    case 0x84 => assert Pair(0x4f, 0x84); case 0x85 => assert Pair(0x67, 0x85); case 0x86 => assert Pair(0xdc, 0x86); case 0x87 => assert Pair(0xea, 0x87);
    case 0x88 => assert Pair(0x97, 0x88); case 0x89 => assert Pair(0xf2, 0x89); case 0x8a => assert Pair(0xcf, 0x8a); case 0x8b => assert Pair(0xce, 0x8b);
    case 0x8c => assert Pair(0xf0, 0x8c); case 0x8d => assert Pair(0xb4, 0x8d); case 0x8e => assert Pair(0xe6, 0x8e); case _ => assert Pair(0x73, 0x8f);
  }

  lemma Redone90(n: Byte)
    requires 0x90 <= n < 0xa0
    ensures Sbox(Rsbox(n)) == n
  {
    match n
    case 0x90 => assert Pair(0x96, 0x90); case 0x91 => assert Pair(0xac, 0x91); case 0x92 => assert Pair(0x74, 0x92); case 0x93 => assert Pair(0x22, 0x93);
    case 0x94 => assert Pair(0xe7, 0x94); case 0x95 => assert Pair(0xad, 0x95); case 0x96 => assert Pair(0x35, 0x96); case 0x97 => assert Pair(0x85, 0x97);
    case 0x98 => assert Pair(0xe2, 0x98); case 0x99 => assert Pair(0xf9, 0x99); case 0x9a => assert Pair(0x37, 0x9a); case 0x9b => assert Pair(0xe8, 0x9b);
    case 0x9c => assert Pair(0x1c, 0x9c); case 0x9d => assert Pair(0x75, 0x9d); case 0x9e => assert Pair(0xdf, 0x9e); case _ => assert Pair(0x6e, 0x9f);
  }

  lemma RedoneA0(n: Byte)
    requires 0xa0 <= n < 0xb0
    ensures Sbox(Rsbox(n)) == n
  {
    match n
    case 0xa0 => assert Pair(0x47, 0xa0); case 0xa1 => assert Pair(0xf1, 0xa1); case 0xa2 => assert Pair(0x1a, 0xa2); case 0xa3 => assert Pair(0x71, 0xa3);
    case 0xa4 => assert Pair(0x1d, 0xa4); case 0xa5 => assert Pair(0x29, 0xa5); case 0xa6 => assert Pair(0xc5, 0xa6); case 0xa7 => assert Pair(0x89, 0xa7);
    case 0xa8 => assert Pair(0x6f, 0xa8); case 0xa9 => assert Pair(0xb7, 0xa9); case 0xaa => assert Pair(0x62, 0xaa); case 0xab => assert Pair(0x0e, 0xab);
    case 0xac => assert Pair(0xaa, 0xac); case 0xad => assert Pair(0x18, 0xad); case 0xae => assert Pair(0xbe, 0xae); case _ => assert Pair(0x1b, 0xaf);
  }

  lemma RedoneB0(n: Byte)
    requires 0xb0 <= n < 0xc0
    ensures Sbox(Rsbox(n)) == n
  {
    match n
    case 0xb0 => assert Pair(0xfc, 0xb0); case 0xb1 => assert Pair(0x56, 0xb1); case 0xb2 => assert Pair(0x3e, 0xb2); case 0xb3 => assert Pair(0x4b, 0xb3);
    case 0xb4 => assert Pair(0xc6, 0xb4); case 0xb5 => assert Pair(0xd2, 0xb5); case 0xb6 => assert Pair(0x79, 0xb6); case 0xb7 => assert Pair(0x20, 0xb7);
    case 0xb8 => assert Pair(0x9a, 0xb8); case 0xb9 => assert Pair(0xdb, 0xb9); case 0xba => assert Pair(0xc0, 0xba); case 0xbb => assert Pair(0xfe, 0xbb);
    case 0xbc => assert Pair(0x78, 0xbc); case 0xbd => assert Pair(0xcd, 0xbd); case 0xbe => assert Pair(0x5a, 0xbe); case _ => assert Pair(0xf4, 0xbf);
  }

  lemma RedoneC0(n: Byte)
    requires 0xc0 <= n < 0xd0
    ensures Sbox(Rsbox(n)) == n
  {
    match n
    case 0xc0 => assert Pair(0x1f, 0xc0); case 0xc1 => assert Pair(0xdd, 0xc1); case 0xc2 => assert Pair(0xa8, 0xc2); case 0xc3 => assert Pair(0x33, 0xc3);
    case 0xc4 => assert Pair(0x88, 0xc4); case 0xc5 => assert Pair(0x07, 0xc5); case 0xc6 => assert Pair(0xc7, 0xc6); case 0xc7 => assert Pair(0x31, 0xc7);
    case 0xc8 => assert Pair(0xb1, 0xc8); case 0xc9 => assert Pair(0x12, 0xc9); case 0xca => assert Pair(0x10, 0xca); case 0xcb => assert Pair(0x59, 0xcb);
    case 0xcc => assert Pair(0x27, 0xcc); case 0xcd => assert Pair(0x80, 0xcd); case 0xce => assert Pair(0xec, 0xce); case _ => assert Pair(0x5f, 0xcf);
  }

  lemma RedoneD0(n: Byte)
    requires 0xd0 <= n < 0xe0
    ensures Sbox(Rsbox(n)) == n
  {
    match n
    case 0xd0 => assert Pair(0x60, 0xd0); case 0xd1 => assert Pair(0x51, 0xd1); case 0xd2 => assert Pair(0x7f, 0xd2); case 0xd3 => assert Pair(0xa9, 0xd3);
    case 0xd4 => assert Pair(0x19, 0xd4); case 0xd5 => assert Pair(0xb5, 0xd5); case 0xd6 => assert Pair(0x4a, 0xd6); case 0xd7 => assert Pair(0x0d, 0xd7);
    case 0xd8 => assert Pair(0x2d, 0xd8); case 0xd9 => assert Pair(0xe5, 0xd9); case 0xda => assert Pair(0x7a, 0xda); case 0xdb => assert Pair(0x9f, 0xdb);
    case 0xdc => assert Pair(0x93, 0xdc); case 0xdd => assert Pair(0xc9, 0xdd); case 0xde => assert Pair(0x9c, 0xde); case _ => assert Pair(0xef, 0xdf);
  }

  lemma RedoneE0(n: Byte)
    requires 0xe0 <= n < 0xf0
    ensures Sbox(Rsbox(n)) == n
  {
    match n
    case 0xe0 => assert Pair(0xa0, 0xe0); case 0xe1 => assert Pair(0xe0, 0xe1); case 0xe2 => assert Pair(0x3b, 0xe2); case 0xe3 => assert Pair(0x4d, 0xe3);
    case 0xe4 => assert Pair(0xae, 0xe4); case 0xe5 => assert Pair(0x2a, 0xe5); case 0xe6 => assert Pair(0xf5, 0xe6); case 0xe7 => assert Pair(0xb0, 0xe7);
    case 0xe8 => assert Pair(0xc8, 0xe8); case 0xe9 => assert Pair(0xeb, 0xe9); case 0xea => assert Pair(0xbb, 0xea); case 0xeb => assert Pair(0x3c, 0xeb);
    case 0xec => assert Pair(0x83, 0xec); case 0xed => assert Pair(0x53, 0xed); case 0xee => assert Pair(0x99, 0xee); case _ => assert Pair(0x61, 0xef);
  }

  lemma RedoneF0(n: Byte)
    requires 0xf0 <= n
    ensures Sbox(Rsbox(n)) == n
  {
    match n
    case 0xf0 => assert Pair(0x17, 0xf0); case 0xf1 => assert Pair(0x2b, 0xf1); case 0xf2 => assert Pair(0x04, 0xf2); case 0xf3 => assert Pair(0x7e, 0xf3);
    case 0xf4 => assert Pair(0xba, 0xf4); case 0xf5 => assert Pair(0x77, 0xf5); case 0xf6 => assert Pair(0xd6, 0xf6); case 0xf7 => assert Pair(0x26, 0xf7);
    case 0xf8 => assert Pair(0xe1, 0xf8); case 0xf9 => assert Pair(0x69, 0xf9); case 0xfa => assert Pair(0x14, 0xfa); case 0xfb => assert Pair(0x63, 0xfb);
    case 0xfc => assert Pair(0x55, 0xfc); case 0xfd => assert Pair(0x21, 0xfd); case 0xfe => assert Pair(0x0c, 0xfe); case _ => assert Pair(0x7d, 0xff);
  }

  /** The two tables are inverse permutations of the bytes. */
  lemma TablesInvert(n: Byte)
    ensures Rsbox(Sbox(n)) == n
    ensures Sbox(Rsbox(n)) == n
  {
    hide Sbox, Rsbox;
    if n < 0x10 {
      Undone00(n);
    } else if n < 0x20 {
      Undone10(n);
    } else if n < 0x30 {
      Undone20(n);
    } else if n < 0x40 {
      Undone30(n);
    } else if n < 0x50 {
      Undone40(n);
    } else if n < 0x60 {
      Undone50(n);
    } else if n < 0x70 {
      Undone60(n);
    } else if n < 0x80 {
      Undone70(n);
    } else if n < 0x90 {
      Undone80(n);
    } else if n < 0xa0 {
      Undone90(n);
    } else if n < 0xb0 {
      UndoneA0(n);
    } else if n < 0xc0 {
      UndoneB0(n);
    } else if n < 0xd0 {
      UndoneC0(n);
    } else if n < 0xe0 {
      UndoneD0(n);
    } else if n < 0xf0 {
      UndoneE0(n);
    } else {
      UndoneF0(n);
    }
    if n < 0x10 {
      Redone00(n);
    } else if n < 0x20 {
      Redone10(n);
    } else if n < 0x30 {
      Redone20(n);
    } else if n < 0x40 {
      Redone30(n);
    } else if n < 0x50 {
      Redone40(n);
    } else if n < 0x60 {
      Redone50(n);
    } else if n < 0x70 {
      Redone60(n);
    } else if n < 0x80 {
      Redone70(n);
    } else if n < 0x90 {
      Redone80(n);
    } else if n < 0xa0 {
      Redone90(n);
    } else if n < 0xb0 {
      RedoneA0(n);
    } else if n < 0xc0 {
      RedoneB0(n);
    } else if n < 0xd0 {
      RedoneC0(n);
    } else if n < 0xe0 {
      RedoneD0(n);
    } else if n < 0xf0 {
      RedoneE0(n);
    } else {
      RedoneF0(n);
    }
  }
}
