/** The two tables that src/hpack.c generates from Appendix B of RFC 7541. */
module HuffmanTable {
  import opened Bytes
  import opened Huffman

  const HUFF_COUNT: seq<nat> := [
    0, 0, 0, 0, 0, 10, 26, 32, 6, 0, 5, 3, 2, 6, 2, 3,
    0, 0, 0, 3, 8, 13, 26, 29, 12, 4, 15, 19, 29, 0, 4
  ]

  /** The i-th symbol in order of code length and then of code. */
  function SymbolAt(i: nat): nat {
    if i < 128 then (if i < 64 then (if i < 32 then Symbols0(i) else Symbols32(i))
    else if i < 96 then Symbols64(i) else Symbols96(i))
    else if i < 192 then (if i < 160 then Symbols128(i) else Symbols160(i))
    else if i < 224 then Symbols192(i) else if i < 256 then Symbols224(i) else Symbols256(i)
  }

  function Symbols0(i: nat): nat {
    match i
    case 0 => 48 case 1 => 49 case 2 => 50 case 3 => 97 case 4 => 99 case 5 => 101 case 6 => 105 case 7 => 111
    case 8 => 115 case 9 => 116 case 10 => 32 case 11 => 37 case 12 => 45 case 13 => 46 case 14 => 47
    case 15 => 51 case 16 => 52 case 17 => 53 case 18 => 54 case 19 => 55 case 20 => 56 case 21 => 57
    case 22 => 61 case 23 => 65 case 24 => 95 case 25 => 98 case 26 => 100 case 27 => 102 case 28 => 103
    case 29 => 104 case 30 => 108 case _ => 109
  }

  function Symbols32(i: nat): nat {
    match i
    case 32 => 110 case 33 => 112 case 34 => 114 case 35 => 117 case 36 => 58 case 37 => 66 case 38 => 67
    case 39 => 68 case 40 => 69 case 41 => 70 case 42 => 71 case 43 => 72 case 44 => 73 case 45 => 74
    case 46 => 75 case 47 => 76 case 48 => 77 case 49 => 78 case 50 => 79 case 51 => 80 case 52 => 81
    case 53 => 82 case 54 => 83 case 55 => 84 case 56 => 85 case 57 => 86 case 58 => 87 case 59 => 89
    case 60 => 106 case 61 => 107 case 62 => 113 case _ => 118
  }

  function Symbols64(i: nat): nat {
    match i
    case 64 => 119 case 65 => 120 case 66 => 121 case 67 => 122 case 68 => 38 case 69 => 42 case 70 => 44
    case 71 => 59 case 72 => 88 case 73 => 90 case 74 => 33 case 75 => 34 case 76 => 40 case 77 => 41
    case 78 => 63 case 79 => 39 case 80 => 43 case 81 => 124 case 82 => 35 case 83 => 62 case 84 => 0
    case 85 => 36 case 86 => 64 case 87 => 91 case 88 => 93 case 89 => 126 case 90 => 94 case 91 => 125
    case 92 => 60 case 93 => 96 case 94 => 123 case _ => 92
  }

  function Symbols96(i: nat): nat {
    match i
    case 96 => 195 case 97 => 208 case 98 => 128 case 99 => 130 case 100 => 131 case 101 => 162
    case 102 => 184 case 103 => 194 case 104 => 224 case 105 => 226 case 106 => 153 case 107 => 161
    case 108 => 167 case 109 => 172 case 110 => 176 case 111 => 177 case 112 => 179 case 113 => 209
    case 114 => 216 case 115 => 217 case 116 => 227 case 117 => 229 case 118 => 230 case 119 => 129
    case 120 => 132 case 121 => 133 case 122 => 134 case 123 => 136 case 124 => 146 case 125 => 154
    case 126 => 156 case _ => 160
  }

  function Symbols128(i: nat): nat {
    match i
    case 128 => 163 case 129 => 164 case 130 => 169 case 131 => 170 case 132 => 173 case 133 => 178
    case 134 => 181 case 135 => 185 case 136 => 186 case 137 => 187 case 138 => 189 case 139 => 190
    case 140 => 196 case 141 => 198 case 142 => 228 case 143 => 232 case 144 => 233 case 145 => 1
    case 146 => 135 case 147 => 137 case 148 => 138 case 149 => 139 case 150 => 140 case 151 => 141
    case 152 => 143 case 153 => 147 case 154 => 149 case 155 => 150 case 156 => 151 case 157 => 152
    case 158 => 155 case _ => 157
  }

  function Symbols160(i: nat): nat {
    match i
    case 160 => 158 case 161 => 165 case 162 => 166 case 163 => 168 case 164 => 174 case 165 => 175
    case 166 => 180 case 167 => 182 case 168 => 183 case 169 => 188 case 170 => 191 case 171 => 197
    case 172 => 231 case 173 => 239 case 174 => 9 case 175 => 142 case 176 => 144 case 177 => 145
    case 178 => 148 case 179 => 159 case 180 => 171 case 181 => 206 case 182 => 215 case 183 => 225
    case 184 => 236 case 185 => 237 case 186 => 199 case 187 => 207 case 188 => 234 case 189 => 235
    case 190 => 192 case _ => 193
  }

  function Symbols192(i: nat): nat {
    match i
    case 192 => 200 case 193 => 201 case 194 => 202 case 195 => 205 case 196 => 210 case 197 => 213
    case 198 => 218 case 199 => 219 case 200 => 238 case 201 => 240 case 202 => 242 case 203 => 243
    case 204 => 255 case 205 => 203 case 206 => 204 case 207 => 211 case 208 => 212 case 209 => 214
    case 210 => 221 case 211 => 222 case 212 => 223 case 213 => 241 case 214 => 244 case 215 => 245
    case 216 => 246 case 217 => 247 case 218 => 248 case 219 => 250 case 220 => 251 case 221 => 252
    case 222 => 253 case _ => 254
  }

  function Symbols224(i: nat): nat {
    match i
    case 224 => 2 case 225 => 3 case 226 => 4 case 227 => 5 case 228 => 6 case 229 => 7 case 230 => 8
    case 231 => 11 case 232 => 12 case 233 => 14 case 234 => 15 case 235 => 16 case 236 => 17 case 237 => 18
    case 238 => 19 case 239 => 20 case 240 => 21 case 241 => 23 case 242 => 24 case 243 => 25 case 244 => 26
    case 245 => 27 case 246 => 28 case 247 => 29 case 248 => 30 case 249 => 31 case 250 => 127 case 251 => 220
    case 252 => 249 case 253 => 10 case 254 => 13 case _ => 22
  }

  function Symbols256(i: nat): nat {
    match i
    case _ => 256
  }

  function SymbolsFrom(i: nat): (r: seq<nat>)
    requires i <= 257
    ensures |r| == 257 - i
    ensures forall k | 0 <= k < |r| :: r[k] == SymbolAt(i + k)
    decreases 257 - i
  {
    hide SymbolAt; if i == 257 then [] else [SymbolAt(i)] + SymbolsFrom(i + 1)
  }

  const HUFF_SYMBOL: seq<nat> := SymbolsFrom(0)

  const RFC7541: Table := Table(HUFF_COUNT, HUFF_SYMBOL)

  /** Where each octet, and the end mark 256, stands in the symbol list. */
  function RankAt(i: nat): nat {
    if i < 128 then (if i < 64 then (if i < 32 then Ranks0(i) else Ranks32(i))
    else if i < 96 then Ranks64(i) else Ranks96(i))
    else if i < 192 then (if i < 160 then Ranks128(i) else Ranks160(i))
    else if i < 224 then Ranks192(i) else if i < 256 then Ranks224(i) else Ranks256(i)
  }

  function Ranks0(i: nat): nat {
    match i
    case 0 => 84 case 1 => 145 case 2 => 224 case 3 => 225 case 4 => 226 case 5 => 227 case 6 => 228
    case 7 => 229 case 8 => 230 case 9 => 174 case 10 => 253 case 11 => 231 case 12 => 232 case 13 => 254
    case 14 => 233 case 15 => 234 case 16 => 235 case 17 => 236 case 18 => 237 case 19 => 238 case 20 => 239
    case 21 => 240 case 22 => 255 case 23 => 241 case 24 => 242 case 25 => 243 case 26 => 244 case 27 => 245
    case 28 => 246 case 29 => 247 case 30 => 248 case _ => 249
  }

  function Ranks32(i: nat): nat {
    match i
    case 32 => 10 case 33 => 74 case 34 => 75 case 35 => 82 case 36 => 85 case 37 => 11 case 38 => 68
    case 39 => 79 case 40 => 76 case 41 => 77 case 42 => 69 case 43 => 80 case 44 => 70 case 45 => 12
    case 46 => 13 case 47 => 14 case 48 => 0 case 49 => 1 case 50 => 2 case 51 => 15 case 52 => 16
    case 53 => 17 case 54 => 18 case 55 => 19 case 56 => 20 case 57 => 21 case 58 => 36 case 59 => 71
    case 60 => 92 case 61 => 22 case 62 => 83 case _ => 78
  }

  function Ranks64(i: nat): nat {
    match i
    case 64 => 86 case 65 => 23 case 66 => 37 case 67 => 38 case 68 => 39 case 69 => 40 case 70 => 41
    case 71 => 42 case 72 => 43 case 73 => 44 case 74 => 45 case 75 => 46 case 76 => 47 case 77 => 48
    case 78 => 49 case 79 => 50 case 80 => 51 case 81 => 52 case 82 => 53 case 83 => 54 case 84 => 55
    case 85 => 56 case 86 => 57 case 87 => 58 case 88 => 72 case 89 => 59 case 90 => 73 case 91 => 87
    case 92 => 95 case 93 => 88 case 94 => 90 case _ => 24
  }

  function Ranks96(i: nat): nat {
    match i
    case 96 => 93 case 97 => 3 case 98 => 25 case 99 => 4 case 100 => 26 case 101 => 5 case 102 => 27
    case 103 => 28 case 104 => 29 case 105 => 6 case 106 => 60 case 107 => 61 case 108 => 30 case 109 => 31
    case 110 => 32 case 111 => 7 case 112 => 33 case 113 => 62 case 114 => 34 case 115 => 8 case 116 => 9
    case 117 => 35 case 118 => 63 case 119 => 64 case 120 => 65 case 121 => 66 case 122 => 67 case 123 => 94
    case 124 => 81 case 125 => 91 case 126 => 89 case _ => 250
  }

  function Ranks128(i: nat): nat {
    match i
    case 128 => 98 case 129 => 119 case 130 => 99 case 131 => 100 case 132 => 120 case 133 => 121
    case 134 => 122 case 135 => 146 case 136 => 123 case 137 => 147 case 138 => 148 case 139 => 149
    case 140 => 150 case 141 => 151 case 142 => 175 case 143 => 152 case 144 => 176 case 145 => 177
    case 146 => 124 case 147 => 153 case 148 => 178 case 149 => 154 case 150 => 155 case 151 => 156
    case 152 => 157 case 153 => 106 case 154 => 125 case 155 => 158 case 156 => 126 case 157 => 159
    case 158 => 160 case _ => 179
  }

  function Ranks160(i: nat): nat {
    match i
    case 160 => 127 case 161 => 107 case 162 => 101 case 163 => 128 case 164 => 129 case 165 => 161
    case 166 => 162 case 167 => 108 case 168 => 163 case 169 => 130 case 170 => 131 case 171 => 180
    case 172 => 109 case 173 => 132 case 174 => 164 case 175 => 165 case 176 => 110 case 177 => 111
    case 178 => 133 case 179 => 112 case 180 => 166 case 181 => 134 case 182 => 167 case 183 => 168
    case 184 => 102 case 185 => 135 case 186 => 136 case 187 => 137 case 188 => 169 case 189 => 138
    case 190 => 139 case _ => 170
  }

  function Ranks192(i: nat): nat {
    match i
    case 192 => 190 case 193 => 191 case 194 => 103 case 195 => 96 case 196 => 140 case 197 => 171
    case 198 => 141 case 199 => 186 case 200 => 192 case 201 => 193 case 202 => 194 case 203 => 205
    case 204 => 206 case 205 => 195 case 206 => 181 case 207 => 187 case 208 => 97 case 209 => 113
    case 210 => 196 case 211 => 207 case 212 => 208 case 213 => 197 case 214 => 209 case 215 => 182
    case 216 => 114 case 217 => 115 case 218 => 198 case 219 => 199 case 220 => 251 case 221 => 210
    case 222 => 211 case _ => 212
  }

  function Ranks224(i: nat): nat {
    match i
    case 224 => 104 case 225 => 183 case 226 => 105 case 227 => 116 case 228 => 142 case 229 => 117
    case 230 => 118 case 231 => 172 case 232 => 143 case 233 => 144 case 234 => 188 case 235 => 189
    case 236 => 184 case 237 => 185 case 238 => 200 case 239 => 173 case 240 => 201 case 241 => 213
    case 242 => 202 case 243 => 203 case 244 => 214 case 245 => 215 case 246 => 216 case 247 => 217
    case 248 => 218 case 249 => 252 case 250 => 219 case 251 => 220 case 252 => 221 case 253 => 222
    case 254 => 223 case _ => 204
  }

  function Ranks256(i: nat): nat {
    match i
    case _ => 256
  }

  /** The two tables are inverse permutations of 0..256, entry by entry. */
  predicate Inverses(k: nat) {
    && RankAt(k) < 257 && SymbolAt(RankAt(k)) == k
    && SymbolAt(k) < 257 && RankAt(SymbolAt(k)) == k
  }

  lemma Inverse0(k: nat)
    requires 0 <= k < 6
    ensures Inverses(k)
  {
  }

  lemma Inverse6(k: nat)
    requires 6 <= k < 12
    ensures Inverses(k)
  {
  }

  lemma Inverse12(k: nat)
    requires 12 <= k < 18
    ensures Inverses(k)
  {
  }

  lemma Inverse18(k: nat)
    requires 18 <= k < 24
    ensures Inverses(k)
  {
  }

  lemma Inverse24(k: nat)
    requires 24 <= k < 30
    ensures Inverses(k)
  {
  }

  lemma Inverse30(k: nat)
    requires 30 <= k < 36
    ensures Inverses(k)
  {
  }

  lemma Inverse36(k: nat)
    requires 36 <= k < 42
    ensures Inverses(k)
  {
  }

  lemma Inverse42(k: nat)
    requires 42 <= k < 48
    ensures Inverses(k)
  {
  }

  lemma Inverse48(k: nat)
    requires 48 <= k < 54
    ensures Inverses(k)
  {
  }

  lemma Inverse54(k: nat)
    requires 54 <= k < 60
    ensures Inverses(k)
  {
  }

  lemma Inverse60(k: nat)
    requires 60 <= k < 66
    ensures Inverses(k)
  {
  }

  lemma Inverse66(k: nat)
    requires 66 <= k < 72
    ensures Inverses(k)
  {
  }

  lemma Inverse72(k: nat)
    requires 72 <= k < 78
    ensures Inverses(k)
  {
  }

  lemma Inverse78(k: nat)
    requires 78 <= k < 84
    ensures Inverses(k)
  {
  }

  lemma Inverse84(k: nat)
    requires 84 <= k < 90
    ensures Inverses(k)
  {
  }

  lemma Inverse90(k: nat)
    requires 90 <= k < 96
    ensures Inverses(k)
  {
  }

  lemma Inverse96(k: nat)
    requires 96 <= k < 102
    ensures Inverses(k)
  {
  }

  lemma Inverse102(k: nat)
    requires 102 <= k < 108
    ensures Inverses(k)
  {
  }

  lemma Inverse108(k: nat)
    requires 108 <= k < 114
    ensures Inverses(k)
  {
  }

  lemma Inverse114(k: nat)
    requires 114 <= k < 120
    ensures Inverses(k)
  {
  }

  lemma Inverse120(k: nat)
    requires 120 <= k < 126
    ensures Inverses(k)
  {
  }

  lemma Inverse126(k: nat)
    requires 126 <= k < 132
    ensures Inverses(k)
  {
  }

  lemma Inverse132(k: nat)
    requires 132 <= k < 138
    ensures Inverses(k)
  {
  }

  lemma Inverse138(k: nat)
    requires 138 <= k < 144
    ensures Inverses(k)
  {
  }

  lemma Inverse144(k: nat)
    requires 144 <= k < 150
    ensures Inverses(k)
  {
  }

  lemma Inverse150(k: nat)
    requires 150 <= k < 156
    ensures Inverses(k)
  {
  }

  lemma Inverse156(k: nat)
    requires 156 <= k < 162
    ensures Inverses(k)
  {
  }

  lemma Inverse162(k: nat)
    requires 162 <= k < 168
    ensures Inverses(k)
  {
  }

  lemma Inverse168(k: nat)
    requires 168 <= k < 174
    ensures Inverses(k)
  {
  }

  lemma Inverse174(k: nat)
    requires 174 <= k < 180
    ensures Inverses(k)
  {
  }

  lemma Inverse180(k: nat)
    requires 180 <= k < 186
    ensures Inverses(k)
  {
  }

  lemma Inverse186(k: nat)
    requires 186 <= k < 192
    ensures Inverses(k)
  {
  }

  lemma Inverse192(k: nat)
    requires 192 <= k < 198
    ensures Inverses(k)
  {
  }

  lemma Inverse198(k: nat)
    requires 198 <= k < 204
    ensures Inverses(k)
  {
  }

  lemma Inverse204(k: nat)
    requires 204 <= k < 210
    ensures Inverses(k)
  {
  }

  lemma Inverse210(k: nat)
    requires 210 <= k < 216
    ensures Inverses(k)
  {
  }

  lemma Inverse216(k: nat)
    requires 216 <= k < 222
    ensures Inverses(k)
  {
  }

  lemma Inverse222(k: nat)
    requires 222 <= k < 228
    ensures Inverses(k)
  {
  }

  lemma Inverse228(k: nat)
    requires 228 <= k < 234
    ensures Inverses(k)
  {
  }

  lemma Inverse234(k: nat)
    requires 234 <= k < 240
    ensures Inverses(k)
  {
  }

  lemma Inverse240(k: nat)
    requires 240 <= k < 246
    ensures Inverses(k)
  {
  }

  lemma Inverse246(k: nat)
    requires 246 <= k < 252
    ensures Inverses(k)
  {
  }

  lemma Inverse252(k: nat)
    requires 252 <= k < 257
    ensures Inverses(k)
  {
  }

  lemma Inverse(k: nat)
    requires k < 257
    ensures Inverses(k)
  {
    hide *;
    if
    case 0 <= k < 6 => Inverse0(k);
    case 6 <= k < 12 => Inverse6(k);
    case 12 <= k < 18 => Inverse12(k);
    case 18 <= k < 24 => Inverse18(k);
    case 24 <= k < 30 => Inverse24(k);
    case 30 <= k < 36 => Inverse30(k);
    case 36 <= k < 42 => Inverse36(k);
    case 42 <= k < 48 => Inverse42(k);
    case 48 <= k < 54 => Inverse48(k);
    case 54 <= k < 60 => Inverse54(k);
    case 60 <= k < 66 => Inverse60(k);
    case 66 <= k < 72 => Inverse66(k);
    case 72 <= k < 78 => Inverse72(k);
    case 78 <= k < 84 => Inverse78(k);
    case 84 <= k < 90 => Inverse84(k);
    case 90 <= k < 96 => Inverse90(k);
    case 96 <= k < 102 => Inverse96(k);
    case 102 <= k < 108 => Inverse102(k);
    case 108 <= k < 114 => Inverse108(k);
    case 114 <= k < 120 => Inverse114(k);
    case 120 <= k < 126 => Inverse120(k);
    case 126 <= k < 132 => Inverse126(k);
    case 132 <= k < 138 => Inverse132(k);
    case 138 <= k < 144 => Inverse138(k);
    case 144 <= k < 150 => Inverse144(k);
    case 150 <= k < 156 => Inverse150(k);
    case 156 <= k < 162 => Inverse156(k);
    case 162 <= k < 168 => Inverse162(k);
    case 168 <= k < 174 => Inverse168(k);
    case 174 <= k < 180 => Inverse174(k);
    case 180 <= k < 186 => Inverse180(k);
    case 186 <= k < 192 => Inverse186(k);
    case 192 <= k < 198 => Inverse192(k);
    case 198 <= k < 204 => Inverse198(k);
    case 204 <= k < 210 => Inverse204(k);
    case 210 <= k < 216 => Inverse210(k);
    case 216 <= k < 222 => Inverse216(k);
    case 222 <= k < 228 => Inverse222(k);
    case 228 <= k < 234 => Inverse228(k);
    case 234 <= k < 240 => Inverse234(k);
    case 240 <= k < 246 => Inverse240(k);
    case 246 <= k < 252 => Inverse246(k);
    case 252 <= k < 257 => Inverse252(k);
  }

  /** The smallest code of each length, and its place in the symbol list. */
  const HUFF_FIRST: seq<nat> := [
    0, 0, 0, 0, 0, 0, 20, 92, 248, 508, 1016, 2042,
    4090, 8184, 16380, 32764, 65534, 131068, 262136, 524272, 1048550, 2097116, 4194258, 8388568,
    16777194, 33554412, 67108832, 134217694, 268435426, 536870910, 1073741820
  ]

  const HUFF_INDEX: seq<nat> := [
    0, 0, 0, 0, 0, 0, 10, 36, 68, 74, 74, 79, 82, 84, 90, 92,
    95, 95, 95, 95, 98, 106, 119, 145, 174, 186, 190, 205, 224, 253, 253
  ]

  /** Each length starts at twice the code after the last one of the length before. */
  ghost predicate Follows(count: seq<nat>, first: seq<nat>, index: seq<nat>, len: nat) {
    && |first| == |index| == |count| && len + 1 < |count|
    && first[len + 1] == 2 * (first[len] + count[len])
    && index[len + 1] == index[len] + count[len]
  }

  lemma FollowsTo15(len: nat)
    requires len < 15
    ensures Follows(HUFF_COUNT, HUFF_FIRST, HUFF_INDEX, len)
  {
  }

  lemma FollowsTo30(len: nat)
    requires 15 <= len < 30
    ensures Follows(HUFF_COUNT, HUFF_FIRST, HUFF_INDEX, len)
  {
  }

  lemma {:induction false} Lengths(t: Table, first: seq<nat>, index: seq<nat>, len: nat)
    requires |first| == |index| == |t.count| && len < |t.count| && first[0] == index[0] == 0
    requires forall k: nat | k < len :: Follows(t.count, first, index, k)
    ensures t.First(len) == first[len] && t.Index(len) == index[len]
  {
    if len > 0 {
      Lengths(t, first, index, len - 1);
      assert Follows(t.count, first, index, len - 1);
    }
  }

  lemma LengthsAt30()
    ensures RFC7541.First(30) == 1073741820 && RFC7541.Index(30) == 253
  {
    hide Table.First, Table.Index, Follows;
    forall k: nat | k < 30
      ensures Follows(HUFF_COUNT, HUFF_FIRST, HUFF_INDEX, k)
    {
      if k < 15 {
        FollowsTo15(k);
      } else {
        FollowsTo30(k);
      }
    }
    Lengths(RFC7541, HUFF_FIRST, HUFF_INDEX, 30);
  }

  /** The code lengths use up the code space, and one symbol is listed for each code. */
  lemma Kraft()
    ensures RFC7541.MaxBits() == 30
    ensures RFC7541.Limit(30) == Pow2(30) && RFC7541.Index(30) + HUFF_COUNT[30] == 257
  {
    LengthsAt30();
    hide Table.First, Table.Index;
    assert Pow2(6) == 64;
    assert Pow2(12) == 4096;
    assert Pow2(18) == 262144;
    assert Pow2(24) == 16777216;
    assert Pow2(30) == 1073741824;
  }

  lemma TableIsComplete()
    ensures RFC7541.Complete()
  {
    hide SymbolAt, RankAt, SymbolsFrom;
    Kraft();
    SymbolsListed();
    hide Table.First, Table.Index, Table.Limit, Pow2;
    var t := RFC7541;
    forall i, j | 0 <= i < j < 257
      ensures t.symbol[i] != t.symbol[j]
    {
      Inverse(i);
      Inverse(j);
    }
  }

  lemma SymbolsListed()
    ensures forall i | 0 <= i < 257 :: RFC7541.symbol[i] <= EOS
    ensures forall s: nat | s <= EOS :: s in RFC7541.symbol
  {
    hide SymbolAt, RankAt, SymbolsFrom;
    var t := RFC7541;
    forall i | 0 <= i < 257
      ensures t.symbol[i] <= EOS
    {
      Inverse(i);
    }
    forall s: nat | s <= EOS
      ensures s in t.symbol
    {
      Inverse(s);
      assert t.symbol[RankAt(s)] == s;
    }
  }
}
