/**
  Appendix B of RFC 7541 symbol by symbol, and that the tables of src/hpack.c spell it: counting
  through the code lengths gives every octet, and the end mark, its code.
 */
module HuffmanAppendix {
  import opened Bytes
  import opened Huffman
  import opened HuffmanTable

  /** Code, as an integer, and its length in bits. */
  function AppendixB(s: nat): (nat, nat) {
    if s >= 256 then (0x3fff_ffff, 30)
    else if s < 64 then
      (if s < 32 then (if s < 16 then AppendixB0(s) else AppendixB16(s))
       else if s < 48 then AppendixB32(s) else AppendixB48(s))
    else if s < 128 then
      (if s < 96 then (if s < 80 then AppendixB64(s) else AppendixB80(s))
       else if s < 112 then AppendixB96(s) else AppendixB112(s))
    else if s < 192 then
      (if s < 160 then (if s < 144 then AppendixB128(s) else AppendixB144(s))
       else if s < 176 then AppendixB160(s) else AppendixB176(s))
    else
      (if s < 224 then (if s < 208 then AppendixB192(s) else AppendixB208(s))
       else if s < 240 then AppendixB224(s) else AppendixB240(s))
  }

  function AppendixB0(s: nat): (nat, nat) {
    match s
    case 0 => (0x1ff8, 13) case 1 => (0x7f_ffd8, 23) case 2 => (0xfff_ffe2, 28) case 3 => (0xfff_ffe3, 28)
    case 4 => (0xfff_ffe4, 28) case 5 => (0xfff_ffe5, 28) case 6 => (0xfff_ffe6, 28) case 7 => (0xfff_ffe7, 28)
    case 8 => (0xfff_ffe8, 28) case 9 => (0xff_ffea, 24) case 10 => (0x3fff_fffc, 30)
    case 11 => (0xfff_ffe9, 28) case 12 => (0xfff_ffea, 28) case 13 => (0x3fff_fffd, 30)
    case 14 => (0xfff_ffeb, 28) case _ => (0xfff_ffec, 28)
  }

  function AppendixB16(s: nat): (nat, nat) {
    match s
    case 16 => (0xfff_ffed, 28) case 17 => (0xfff_ffee, 28) case 18 => (0xfff_ffef, 28)
    case 19 => (0xfff_fff0, 28) case 20 => (0xfff_fff1, 28) case 21 => (0xfff_fff2, 28)
    case 22 => (0x3fff_fffe, 30) case 23 => (0xfff_fff3, 28) case 24 => (0xfff_fff4, 28)
    case 25 => (0xfff_fff5, 28) case 26 => (0xfff_fff6, 28) case 27 => (0xfff_fff7, 28)
    case 28 => (0xfff_fff8, 28) case 29 => (0xfff_fff9, 28) case 30 => (0xfff_fffa, 28)
    case _ => (0xfff_fffb, 28)
  }

  function AppendixB32(s: nat): (nat, nat) {
    match s
    case 32 => (0x14, 6) case 33 => (0x3f8, 10) case 34 => (0x3f9, 10) case 35 => (0xffa, 12)
    case 36 => (0x1ff9, 13) case 37 => (0x15, 6) case 38 => (0xf8, 8) case 39 => (0x7fa, 11)
    case 40 => (0x3fa, 10) case 41 => (0x3fb, 10) case 42 => (0xf9, 8) case 43 => (0x7fb, 11)
    case 44 => (0xfa, 8) case 45 => (0x16, 6) case 46 => (0x17, 6) case _ => (0x18, 6)
  }

  function AppendixB48(s: nat): (nat, nat) {
    match s
    case 48 => (0x0, 5) case 49 => (0x1, 5) case 50 => (0x2, 5) case 51 => (0x19, 6) case 52 => (0x1a, 6)
    case 53 => (0x1b, 6) case 54 => (0x1c, 6) case 55 => (0x1d, 6) case 56 => (0x1e, 6) case 57 => (0x1f, 6)
    case 58 => (0x5c, 7) case 59 => (0xfb, 8) case 60 => (0x7ffc, 15) case 61 => (0x20, 6)
    case 62 => (0xffb, 12) case _ => (0x3fc, 10)
  }

  function AppendixB64(s: nat): (nat, nat) {
    match s
    case 64 => (0x1ffa, 13) case 65 => (0x21, 6) case 66 => (0x5d, 7) case 67 => (0x5e, 7) case 68 => (0x5f, 7)
    case 69 => (0x60, 7) case 70 => (0x61, 7) case 71 => (0x62, 7) case 72 => (0x63, 7) case 73 => (0x64, 7)
    case 74 => (0x65, 7) case 75 => (0x66, 7) case 76 => (0x67, 7) case 77 => (0x68, 7) case 78 => (0x69, 7)
    case _ => (0x6a, 7)
  }

  function AppendixB80(s: nat): (nat, nat) {
    match s
    case 80 => (0x6b, 7) case 81 => (0x6c, 7) case 82 => (0x6d, 7) case 83 => (0x6e, 7) case 84 => (0x6f, 7)
    case 85 => (0x70, 7) case 86 => (0x71, 7) case 87 => (0x72, 7) case 88 => (0xfc, 8) case 89 => (0x73, 7)
    case 90 => (0xfd, 8) case 91 => (0x1ffb, 13) case 92 => (0x7_fff0, 19) case 93 => (0x1ffc, 13)
    case 94 => (0x3ffc, 14) case _ => (0x22, 6)
  }

  function AppendixB96(s: nat): (nat, nat) {
    match s
    case 96 => (0x7ffd, 15) case 97 => (0x3, 5) case 98 => (0x23, 6) case 99 => (0x4, 5) case 100 => (0x24, 6)
    case 101 => (0x5, 5) case 102 => (0x25, 6) case 103 => (0x26, 6) case 104 => (0x27, 6) case 105 => (0x6, 5)
    case 106 => (0x74, 7) case 107 => (0x75, 7) case 108 => (0x28, 6) case 109 => (0x29, 6)
    case 110 => (0x2a, 6) case _ => (0x7, 5)
  }

  function AppendixB112(s: nat): (nat, nat) {
    match s
    case 112 => (0x2b, 6) case 113 => (0x76, 7) case 114 => (0x2c, 6) case 115 => (0x8, 5) case 116 => (0x9, 5)
    case 117 => (0x2d, 6) case 118 => (0x77, 7) case 119 => (0x78, 7) case 120 => (0x79, 7)
    case 121 => (0x7a, 7) case 122 => (0x7b, 7) case 123 => (0x7ffe, 15) case 124 => (0x7fc, 11)
    case 125 => (0x3ffd, 14) case 126 => (0x1ffd, 13) case _ => (0xfff_fffc, 28)
  }

  function AppendixB128(s: nat): (nat, nat) {
    match s
    case 128 => (0xf_ffe6, 20) case 129 => (0x3f_ffd2, 22) case 130 => (0xf_ffe7, 20) case 131 => (0xf_ffe8, 20)
    case 132 => (0x3f_ffd3, 22) case 133 => (0x3f_ffd4, 22) case 134 => (0x3f_ffd5, 22)
    case 135 => (0x7f_ffd9, 23) case 136 => (0x3f_ffd6, 22) case 137 => (0x7f_ffda, 23)
    case 138 => (0x7f_ffdb, 23) case 139 => (0x7f_ffdc, 23) case 140 => (0x7f_ffdd, 23)
    case 141 => (0x7f_ffde, 23) case 142 => (0xff_ffeb, 24) case _ => (0x7f_ffdf, 23)
  }

  function AppendixB144(s: nat): (nat, nat) {
    match s
    case 144 => (0xff_ffec, 24) case 145 => (0xff_ffed, 24) case 146 => (0x3f_ffd7, 22)
    case 147 => (0x7f_ffe0, 23) case 148 => (0xff_ffee, 24) case 149 => (0x7f_ffe1, 23)
    case 150 => (0x7f_ffe2, 23) case 151 => (0x7f_ffe3, 23) case 152 => (0x7f_ffe4, 23)
    case 153 => (0x1f_ffdc, 21) case 154 => (0x3f_ffd8, 22) case 155 => (0x7f_ffe5, 23)
    case 156 => (0x3f_ffd9, 22) case 157 => (0x7f_ffe6, 23) case 158 => (0x7f_ffe7, 23)
    case _ => (0xff_ffef, 24)
  }

  function AppendixB160(s: nat): (nat, nat) {
    match s
    case 160 => (0x3f_ffda, 22) case 161 => (0x1f_ffdd, 21) case 162 => (0xf_ffe9, 20)
    case 163 => (0x3f_ffdb, 22) case 164 => (0x3f_ffdc, 22) case 165 => (0x7f_ffe8, 23)
    case 166 => (0x7f_ffe9, 23) case 167 => (0x1f_ffde, 21) case 168 => (0x7f_ffea, 23)
    case 169 => (0x3f_ffdd, 22) case 170 => (0x3f_ffde, 22) case 171 => (0xff_fff0, 24)
    case 172 => (0x1f_ffdf, 21) case 173 => (0x3f_ffdf, 22) case 174 => (0x7f_ffeb, 23)
    case _ => (0x7f_ffec, 23)
  }

  function AppendixB176(s: nat): (nat, nat) {
    match s
    case 176 => (0x1f_ffe0, 21) case 177 => (0x1f_ffe1, 21) case 178 => (0x3f_ffe0, 22)
    case 179 => (0x1f_ffe2, 21) case 180 => (0x7f_ffed, 23) case 181 => (0x3f_ffe1, 22)
    case 182 => (0x7f_ffee, 23) case 183 => (0x7f_ffef, 23) case 184 => (0xf_ffea, 20)
    case 185 => (0x3f_ffe2, 22) case 186 => (0x3f_ffe3, 22) case 187 => (0x3f_ffe4, 22)
    case 188 => (0x7f_fff0, 23) case 189 => (0x3f_ffe5, 22) case 190 => (0x3f_ffe6, 22)
    case _ => (0x7f_fff1, 23)
  }

  function AppendixB192(s: nat): (nat, nat) {
    match s
    case 192 => (0x3ff_ffe0, 26) case 193 => (0x3ff_ffe1, 26) case 194 => (0xf_ffeb, 20)
    case 195 => (0x7_fff1, 19) case 196 => (0x3f_ffe7, 22) case 197 => (0x7f_fff2, 23)
    case 198 => (0x3f_ffe8, 22) case 199 => (0x1ff_ffec, 25) case 200 => (0x3ff_ffe2, 26)
    case 201 => (0x3ff_ffe3, 26) case 202 => (0x3ff_ffe4, 26) case 203 => (0x7ff_ffde, 27)
    case 204 => (0x7ff_ffdf, 27) case 205 => (0x3ff_ffe5, 26) case 206 => (0xff_fff1, 24)
    case _ => (0x1ff_ffed, 25)
  }

  function AppendixB208(s: nat): (nat, nat) {
    match s
    case 208 => (0x7_fff2, 19) case 209 => (0x1f_ffe3, 21) case 210 => (0x3ff_ffe6, 26)
    case 211 => (0x7ff_ffe0, 27) case 212 => (0x7ff_ffe1, 27) case 213 => (0x3ff_ffe7, 26)
    case 214 => (0x7ff_ffe2, 27) case 215 => (0xff_fff2, 24) case 216 => (0x1f_ffe4, 21)
    case 217 => (0x1f_ffe5, 21) case 218 => (0x3ff_ffe8, 26) case 219 => (0x3ff_ffe9, 26)
    case 220 => (0xfff_fffd, 28) case 221 => (0x7ff_ffe3, 27) case 222 => (0x7ff_ffe4, 27)
    case _ => (0x7ff_ffe5, 27)
  }

  function AppendixB224(s: nat): (nat, nat) {
    match s
    case 224 => (0xf_ffec, 20) case 225 => (0xff_fff3, 24) case 226 => (0xf_ffed, 20)
    case 227 => (0x1f_ffe6, 21) case 228 => (0x3f_ffe9, 22) case 229 => (0x1f_ffe7, 21)
    case 230 => (0x1f_ffe8, 21) case 231 => (0x7f_fff3, 23) case 232 => (0x3f_ffea, 22)
    case 233 => (0x3f_ffeb, 22) case 234 => (0x1ff_ffee, 25) case 235 => (0x1ff_ffef, 25)
    case 236 => (0xff_fff4, 24) case 237 => (0xff_fff5, 24) case 238 => (0x3ff_ffea, 26)
    case _ => (0x7f_fff4, 23)
  }

  function AppendixB240(s: nat): (nat, nat) {
    match s
    case 240 => (0x3ff_ffeb, 26) case 241 => (0x7ff_ffe6, 27) case 242 => (0x3ff_ffec, 26)
    case 243 => (0x3ff_ffed, 26) case 244 => (0x7ff_ffe7, 27) case 245 => (0x7ff_ffe8, 27)
    case 246 => (0x7ff_ffe9, 27) case 247 => (0x7ff_ffea, 27) case 248 => (0x7ff_ffeb, 27)
    case 249 => (0xfff_fffe, 28) case 250 => (0x7ff_ffec, 27) case 251 => (0x7ff_ffed, 27)
    case 252 => (0x7ff_ffee, 27) case 253 => (0x7ff_ffef, 27) case 254 => (0x7ff_fff0, 27)
    case _ => (0x3ff_ffee, 26)
  }

  // ------------------------------------------------------------ the tables give these codes

  /** The smallest code of a length, where it stands in the symbol list, and how many codes there are. */
  function Place(n: nat): (nat, nat, nat) {
    match n
    case 5 => (0, 0, 10) case 6 => (20, 10, 26) case 7 => (92, 36, 32) case 8 => (248, 68, 6)
    case 10 => (1016, 74, 5) case 11 => (2042, 79, 3) case 12 => (4090, 82, 2) case 13 => (8184, 84, 6)
    case 14 => (16380, 90, 2) case 15 => (32764, 92, 3) case 19 => (524272, 95, 3) case 20 => (1048550, 98, 8)
    case 21 => (2097116, 106, 13) case 22 => (4194258, 119, 26) case 23 => (8388568, 145, 29)
    case 24 => (16777194, 174, 12) case 25 => (33554412, 186, 4) case 26 => (67108832, 190, 15)
    case 27 => (134217694, 205, 19) case 28 => (268435426, 224, 29) case 30 => (1073741820, 253, 4)
    case _ => (0, 0, 0)
  }

  predicate InTables(n: nat) {
    n <= 30 && HUFF_FIRST[n] == Place(n).0 && HUFF_INDEX[n] == Place(n).1 && HUFF_COUNT[n] == Place(n).2
  }

  lemma Places0(n: nat)
    requires 0 <= n < 11 && Place(n).2 > 0
    ensures InTables(n)
  {
  }

  lemma Places11(n: nat)
    requires 11 <= n < 20 && Place(n).2 > 0
    ensures InTables(n)
  {
  }

  lemma Places20(n: nat)
    requires 20 <= n < 26 && Place(n).2 > 0
    ensures InTables(n)
  {
  }

  lemma Places26(n: nat)
    requires 26 <= n < 31 && Place(n).2 > 0
    ensures InTables(n)
  {
  }

  lemma PlaceIs(n: nat)
    requires n <= 30 && Place(n).2 > 0
    ensures InTables(n)
  {
    hide *;
    if
    case n < 11 => Places0(n);
    case 11 <= n < 20 => Places11(n);
    case 20 <= n < 26 => Places20(n);
    case 26 <= n => Places26(n);
  }

  /** The symbol stands at the place in the list that its code asks for. */
  predicate Spelled(s: nat) {
    var (code, n) := AppendixB(s);
    var (first, index, count) := Place(n);
    1 <= n <= 30 && s <= EOS && index <= RankAt(s) < index + count && code == first + RankAt(s) - index
  }

  lemma Spelled0(s: nat)
    requires 0 <= s < 8
    ensures Spelled(s)
  {
  }

  lemma Spelled8(s: nat)
    requires 8 <= s < 16
    ensures Spelled(s)
  {
  }

  lemma Spelled16(s: nat)
    requires 16 <= s < 24
    ensures Spelled(s)
  {
  }

  lemma Spelled24(s: nat)
    requires 24 <= s < 32
    ensures Spelled(s)
  {
  }

  lemma Spelled32(s: nat)
    requires 32 <= s < 40
    ensures Spelled(s)
  {
  }

  lemma Spelled40(s: nat)
    requires 40 <= s < 48
    ensures Spelled(s)
  {
  }

  lemma Spelled48(s: nat)
    requires 48 <= s < 56
    ensures Spelled(s)
  {
  }

  lemma Spelled56(s: nat)
    requires 56 <= s < 64
    ensures Spelled(s)
  {
  }

  lemma Spelled64(s: nat)
    requires 64 <= s < 72
    ensures Spelled(s)
  {
  }

  lemma Spelled72(s: nat)
    requires 72 <= s < 80
    ensures Spelled(s)
  {
  }

  lemma Spelled80(s: nat)
    requires 80 <= s < 88
    ensures Spelled(s)
  {
  }

  lemma Spelled88(s: nat)
    requires 88 <= s < 96
    ensures Spelled(s)
  {
  }

  lemma Spelled96(s: nat)
    requires 96 <= s < 104
    ensures Spelled(s)
  {
  }

  lemma Spelled104(s: nat)
    requires 104 <= s < 112
    ensures Spelled(s)
  {
  }

  lemma Spelled112(s: nat)
    requires 112 <= s < 120
    ensures Spelled(s)
  {
  }

  lemma Spelled120(s: nat)
    requires 120 <= s < 128
    ensures Spelled(s)
  {
  }

  lemma Spelled128(s: nat)
    requires 128 <= s < 136
    ensures Spelled(s)
  {
  }

  lemma Spelled136(s: nat)
    requires 136 <= s < 144
    ensures Spelled(s)
  {
  }

  lemma Spelled144(s: nat)
    requires 144 <= s < 152
    ensures Spelled(s)
  {
  }

  lemma Spelled152(s: nat)
    requires 152 <= s < 160
    ensures Spelled(s)
  {
  }

  lemma Spelled160(s: nat)
    requires 160 <= s < 168
    ensures Spelled(s)
  {
  }

  lemma Spelled168(s: nat)
    requires 168 <= s < 176
    ensures Spelled(s)
  {
  }

  lemma Spelled176(s: nat)
    requires 176 <= s < 184
    ensures Spelled(s)
  {
  }

  lemma Spelled184(s: nat)
    requires 184 <= s < 192
    ensures Spelled(s)
  {
  }

  lemma Spelled192(s: nat)
    requires 192 <= s < 200
    ensures Spelled(s)
  {
  }

  lemma Spelled200(s: nat)
    requires 200 <= s < 208
    ensures Spelled(s)
  {
  }

  lemma Spelled208(s: nat)
    requires 208 <= s < 216
    ensures Spelled(s)
  {
  }

  lemma Spelled216(s: nat)
    requires 216 <= s < 224
    ensures Spelled(s)
  {
  }

  lemma Spelled224(s: nat)
    requires 224 <= s < 232
    ensures Spelled(s)
  {
  }

  lemma Spelled232(s: nat)
    requires 232 <= s < 240
    ensures Spelled(s)
  {
  }

  lemma Spelled240(s: nat)
    requires 240 <= s < 248
    ensures Spelled(s)
  {
  }

  lemma Spelled248(s: nat)
    requires 248 <= s < 256
    ensures Spelled(s)
  {
  }

  lemma Spelled256()
    ensures Spelled(256)
  {
  }

  lemma AllSpelled0(s: nat)
    requires 0 <= s < 64
    ensures Spelled(s)
  {
    hide *;
    if
    case 0 <= s < 8 => Spelled0(s);
    case 8 <= s < 16 => Spelled8(s);
    case 16 <= s < 24 => Spelled16(s);
    case 24 <= s < 32 => Spelled24(s);
    case 32 <= s < 40 => Spelled32(s);
    case 40 <= s < 48 => Spelled40(s);
    case 48 <= s < 56 => Spelled48(s);
    case 56 <= s < 64 => Spelled56(s);
  }

  lemma AllSpelled64(s: nat)
    requires 64 <= s < 128
    ensures Spelled(s)
  {
    hide *;
    if
    case 64 <= s < 72 => Spelled64(s);
    case 72 <= s < 80 => Spelled72(s);
    case 80 <= s < 88 => Spelled80(s);
    case 88 <= s < 96 => Spelled88(s);
    case 96 <= s < 104 => Spelled96(s);
    case 104 <= s < 112 => Spelled104(s);
    case 112 <= s < 120 => Spelled112(s);
    case 120 <= s < 128 => Spelled120(s);
  }

  lemma AllSpelled128(s: nat)
    requires 128 <= s < 192
    ensures Spelled(s)
  {
    hide *;
    if
    case 128 <= s < 136 => Spelled128(s);
    case 136 <= s < 144 => Spelled136(s);
    case 144 <= s < 152 => Spelled144(s);
    case 152 <= s < 160 => Spelled152(s);
    case 160 <= s < 168 => Spelled160(s);
    case 168 <= s < 176 => Spelled168(s);
    case 176 <= s < 184 => Spelled176(s);
    case 184 <= s < 192 => Spelled184(s);
  }

  lemma AllSpelled192(s: nat)
    requires 192 <= s < 256
    ensures Spelled(s)
  {
    hide *;
    if
    case 192 <= s < 200 => Spelled192(s);
    case 200 <= s < 208 => Spelled200(s);
    case 208 <= s < 216 => Spelled208(s);
    case 216 <= s < 224 => Spelled216(s);
    case 224 <= s < 232 => Spelled224(s);
    case 232 <= s < 240 => Spelled232(s);
    case 240 <= s < 248 => Spelled240(s);
    case 248 <= s < 256 => Spelled248(s);
  }

  lemma AllSpelled(s: nat)
    requires s <= EOS
    ensures Spelled(s)
  {
    hide Spelled;
    if
    case s < 64 => AllSpelled0(s);
    case 64 <= s < 128 => AllSpelled64(s);
    case 128 <= s < 192 => AllSpelled128(s);
    case 192 <= s < 256 => AllSpelled192(s);
    case s == 256 => Spelled256();
  }

  /** Every symbol has the code of Appendix B, most significant bit first. */
  lemma CodesOfAppendixB(s: nat)
    requires s <= EOS
    ensures RFC7541.Complete()
    ensures Code(RFC7541, Rank(RFC7541, s)) == ToBits(AppendixB(s).0, AppendixB(s).1)
  {
    hide SymbolAt, RankAt, SymbolsFrom, AppendixB, Place, Table.First, Table.Index, Table.Complete;
    AllSpelled(s);
    TableIsComplete();
    var n, i := AppendixB(s).1, RankAt(s);
    Inverse(s);
    PlaceIs(n);
    FirstAndIndex(n);
    RankIs(s);
    CompleteIsFormed();
    CodeAt(RFC7541, i, n);
  }

  lemma CompleteIsFormed()
    requires RFC7541.Complete()
    ensures RFC7541.WellFormed() && RFC7541.MaxBits() == 30 && |RFC7541.symbol| == 257
    ensures RFC7541.count == HUFF_COUNT
  {
    hide Table.First, Table.Index, SymbolAt;
  }

  lemma RankIs(s: nat)
    requires s <= EOS && RFC7541.Complete()
    ensures RankAt(s) < 257 && Rank(RFC7541, s) == RankAt(s)
  {
    hide SymbolAt, RankAt, Table.First, Table.Index, Table.Complete;
    Inverse(s);
    assert RFC7541.symbol[RankAt(s)] == s;
    RankOfSymbol(RFC7541, RankAt(s));
  }

  lemma FirstAndIndex(n: nat)
    requires n <= 30
    ensures RFC7541.First(n) == HUFF_FIRST[n] && RFC7541.Index(n) == HUFF_INDEX[n]
  {
    hide Table.First, Table.Index, Follows;
    forall k: nat | k < n
      ensures Follows(HUFF_COUNT, HUFF_FIRST, HUFF_INDEX, k)
    {
      if k < 15 {
        FollowsTo15(k);
      } else {
        FollowsTo30(k);
      }
    }
    Lengths(RFC7541, HUFF_FIRST, HUFF_INDEX, n);
  }
}
