/** The field GF(2^8) modulo x^8+x^4+x^3+x^2+1 that the Reed-Solomon product
    code of a CD sector works in, its logarithm tables, and what
    multiplication through them means. */
module Gf256 {
  import opened Numbers
  import opened XorNat

  /** Multiplication by alpha, the class of x. */
  function X(v: nat): nat
    requires v < 256
  {
    if v < 128 then 2 * v else Xor(2 * v - 256, 0x1d)
  }

  // ----- the tables

  function Alog0(k: nat): nat {
    match k
    case 0 => 1 case 1 => 2 case 2 => 4 case 3 => 8
    case 4 => 16 case 5 => 32 case 6 => 64 case 7 => 128
    case 8 => 29 case 9 => 58 case 10 => 116 case 11 => 232
    case 12 => 205 case 13 => 135 case 14 => 19
    case _ => 38
  }

  function Alog1(k: nat): nat {
    match k
    case 16 => 76 case 17 => 152 case 18 => 45 case 19 => 90
    case 20 => 180 case 21 => 117 case 22 => 234 case 23 => 201
    case 24 => 143 case 25 => 3 case 26 => 6 case 27 => 12
    case 28 => 24 case 29 => 48 case 30 => 96
    case _ => 192
  }

  function Alog2(k: nat): nat {
    match k
    case 32 => 157 case 33 => 39 case 34 => 78 case 35 => 156
    case 36 => 37 case 37 => 74 case 38 => 148 case 39 => 53
    case 40 => 106 case 41 => 212 case 42 => 181 case 43 => 119
    case 44 => 238 case 45 => 193 case 46 => 159
    case _ => 35
  }

  function Alog3(k: nat): nat {
    match k
    case 48 => 70 case 49 => 140 case 50 => 5 case 51 => 10
    case 52 => 20 case 53 => 40 case 54 => 80 case 55 => 160
    case 56 => 93 case 57 => 186 case 58 => 105 case 59 => 210
    case 60 => 185 case 61 => 111 case 62 => 222
    case _ => 161
  }

  function Alog4(k: nat): nat {
    match k
    case 64 => 95 case 65 => 190 case 66 => 97 case 67 => 194
    case 68 => 153 case 69 => 47 case 70 => 94 case 71 => 188
    case 72 => 101 case 73 => 202 case 74 => 137 case 75 => 15
    case 76 => 30 case 77 => 60 case 78 => 120
    case _ => 240
  }

  function Alog5(k: nat): nat {
    match k
    case 80 => 253 case 81 => 231 case 82 => 211 case 83 => 187
    case 84 => 107 case 85 => 214 case 86 => 177 case 87 => 127
    case 88 => 254 case 89 => 225 case 90 => 223 case 91 => 163
    case 92 => 91 case 93 => 182 case 94 => 113
    case _ => 226
  }

  function Alog6(k: nat): nat {
    match k
    case 96 => 217 case 97 => 175 case 98 => 67 case 99 => 134
    case 100 => 17 case 101 => 34 case 102 => 68 case 103 => 136
    case 104 => 13 case 105 => 26 case 106 => 52 case 107 => 104
    case 108 => 208 case 109 => 189 case 110 => 103
    case _ => 206
  }

  function Alog7(k: nat): nat {
    match k
    case 112 => 129 case 113 => 31 case 114 => 62 case 115 => 124
    case 116 => 248 case 117 => 237 case 118 => 199 case 119 => 147
    case 120 => 59 case 121 => 118 case 122 => 236 case 123 => 197
    case 124 => 151 case 125 => 51 case 126 => 102
    case _ => 204
  }

  function Alog8(k: nat): nat {
    match k
    case 128 => 133 case 129 => 23 case 130 => 46 case 131 => 92
    case 132 => 184 case 133 => 109 case 134 => 218 case 135 => 169
    case 136 => 79 case 137 => 158 case 138 => 33 case 139 => 66
    case 140 => 132 case 141 => 21 case 142 => 42
    case _ => 84
  }

  function Alog9(k: nat): nat {
    match k
    case 144 => 168 case 145 => 77 case 146 => 154 case 147 => 41
    case 148 => 82 case 149 => 164 case 150 => 85 case 151 => 170
    case 152 => 73 case 153 => 146 case 154 => 57 case 155 => 114
    case 156 => 228 case 157 => 213 case 158 => 183
    case _ => 115
  }

  function AlogA(k: nat): nat {
    match k
    case 160 => 230 case 161 => 209 case 162 => 191 case 163 => 99
    case 164 => 198 case 165 => 145 case 166 => 63 case 167 => 126
    case 168 => 252 case 169 => 229 case 170 => 215 case 171 => 179
    case 172 => 123 case 173 => 246 case 174 => 241
    case _ => 255
  }

  function AlogB(k: nat): nat {
    match k
    case 176 => 227 case 177 => 219 case 178 => 171 case 179 => 75
    case 180 => 150 case 181 => 49 case 182 => 98 case 183 => 196
    case 184 => 149 case 185 => 55 case 186 => 110 case 187 => 220
    case 188 => 165 case 189 => 87 case 190 => 174
    case _ => 65
  }

  function AlogC(k: nat): nat {
    match k
    case 192 => 130 case 193 => 25 case 194 => 50 case 195 => 100
    case 196 => 200 case 197 => 141 case 198 => 7 case 199 => 14
    case 200 => 28 case 201 => 56 case 202 => 112 case 203 => 224
    case 204 => 221 case 205 => 167 case 206 => 83
    case _ => 166
  }

  function AlogD(k: nat): nat {
    match k
    case 208 => 81 case 209 => 162 case 210 => 89 case 211 => 178
    case 212 => 121 case 213 => 242 case 214 => 249 case 215 => 239
    case 216 => 195 case 217 => 155 case 218 => 43 case 219 => 86
    case 220 => 172 case 221 => 69 case 222 => 138
    case _ => 9
  }

  function AlogE(k: nat): nat {
    match k
    case 224 => 18 case 225 => 36 case 226 => 72 case 227 => 144
    case 228 => 61 case 229 => 122 case 230 => 244 case 231 => 245
    case 232 => 247 case 233 => 243 case 234 => 251 case 235 => 235
    case 236 => 203 case 237 => 139 case 238 => 11
    case _ => 22
  }

  function AlogF(k: nat): nat {
    match k
    case 240 => 44 case 241 => 88 case 242 => 176 case 243 => 125
    case 244 => 250 case 245 => 233 case 246 => 207 case 247 => 131
    case 248 => 27 case 249 => 54 case 250 => 108 case 251 => 216
    case 252 => 173 case 253 => 71
    case _ => 142
  }

  /** rs_l12_alog: the powers of alpha. */
  function Alog(k: nat): nat {
    match k / 16
    case 0 => Alog0(k)
    case 1 => Alog1(k)
    case 2 => Alog2(k)
    case 3 => Alog3(k)
    case 4 => Alog4(k)
    case 5 => Alog5(k)
    case 6 => Alog6(k)
    case 7 => Alog7(k)
    case 8 => Alog8(k)
    case 9 => Alog9(k)
    case 10 => AlogA(k)
    case 11 => AlogB(k)
    case 12 => AlogC(k)
    case 13 => AlogD(k)
    case 14 => AlogE(k)
    case _ => AlogF(k)
  }

  function Log0(k: nat): nat {
    match k
    case 0 => 0 case 1 => 0 case 2 => 1 case 3 => 25
    case 4 => 2 case 5 => 50 case 6 => 26 case 7 => 198
    case 8 => 3 case 9 => 223 case 10 => 51 case 11 => 238
    case 12 => 27 case 13 => 104 case 14 => 199
    case _ => 75
  }

  function Log1(k: nat): nat {
    match k
    case 16 => 4 case 17 => 100 case 18 => 224 case 19 => 14
    case 20 => 52 case 21 => 141 case 22 => 239 case 23 => 129
    case 24 => 28 case 25 => 193 case 26 => 105 case 27 => 248
    case 28 => 200 case 29 => 8 case 30 => 76
    case _ => 113
  }

  function Log2(k: nat): nat {
    match k
    case 32 => 5 case 33 => 138 case 34 => 101 case 35 => 47
    case 36 => 225 case 37 => 36 case 38 => 15 case 39 => 33
    case 40 => 53 case 41 => 147 case 42 => 142 case 43 => 218
    case 44 => 240 case 45 => 18 case 46 => 130
    case _ => 69
  }

  function Log3(k: nat): nat {
    match k
    case 48 => 29 case 49 => 181 case 50 => 194 case 51 => 125
    case 52 => 106 case 53 => 39 case 54 => 249 case 55 => 185
    case 56 => 201 case 57 => 154 case 58 => 9 case 59 => 120
    case 60 => 77 case 61 => 228 case 62 => 114
    case _ => 166
  }

  function Log4(k: nat): nat {
    match k
    case 64 => 6 case 65 => 191 case 66 => 139 case 67 => 98
    case 68 => 102 case 69 => 221 case 70 => 48 case 71 => 253
    case 72 => 226 case 73 => 152 case 74 => 37 case 75 => 179
    case 76 => 16 case 77 => 145 case 78 => 34
    case _ => 136
  }

  function Log5(k: nat): nat {
    match k
    case 80 => 54 case 81 => 208 case 82 => 148 case 83 => 206
    case 84 => 143 case 85 => 150 case 86 => 219 case 87 => 189
    case 88 => 241 case 89 => 210 case 90 => 19 case 91 => 92
    case 92 => 131 case 93 => 56 case 94 => 70
    case _ => 64
  }

  function Log6(k: nat): nat {
    match k
    case 96 => 30 case 97 => 66 case 98 => 182 case 99 => 163
    case 100 => 195 case 101 => 72 case 102 => 126 case 103 => 110
    case 104 => 107 case 105 => 58 case 106 => 40 case 107 => 84
    case 108 => 250 case 109 => 133 case 110 => 186
    case _ => 61
  }

  function Log7(k: nat): nat {
    match k
    case 112 => 202 case 113 => 94 case 114 => 155 case 115 => 159
    case 116 => 10 case 117 => 21 case 118 => 121 case 119 => 43
    case 120 => 78 case 121 => 212 case 122 => 229 case 123 => 172
    case 124 => 115 case 125 => 243 case 126 => 167
    case _ => 87
  }

  function Log8(k: nat): nat {
    match k
    case 128 => 7 case 129 => 112 case 130 => 192 case 131 => 247
    case 132 => 140 case 133 => 128 case 134 => 99 case 135 => 13
    case 136 => 103 case 137 => 74 case 138 => 222 case 139 => 237
    case 140 => 49 case 141 => 197 case 142 => 254
    case _ => 24
  }

  function Log9(k: nat): nat {
    match k
    case 144 => 227 case 145 => 165 case 146 => 153 case 147 => 119
    case 148 => 38 case 149 => 184 case 150 => 180 case 151 => 124
    case 152 => 17 case 153 => 68 case 154 => 146 case 155 => 217
    case 156 => 35 case 157 => 32 case 158 => 137
    case _ => 46
  }

  function LogA(k: nat): nat {
    match k
    case 160 => 55 case 161 => 63 case 162 => 209 case 163 => 91
    case 164 => 149 case 165 => 188 case 166 => 207 case 167 => 205
    case 168 => 144 case 169 => 135 case 170 => 151 case 171 => 178
    case 172 => 220 case 173 => 252 case 174 => 190
    case _ => 97
  }

  function LogB(k: nat): nat {
    match k
    case 176 => 242 case 177 => 86 case 178 => 211 case 179 => 171
    case 180 => 20 case 181 => 42 case 182 => 93 case 183 => 158
    case 184 => 132 case 185 => 60 case 186 => 57 case 187 => 83
    case 188 => 71 case 189 => 109 case 190 => 65
    case _ => 162
  }

  function LogC(k: nat): nat {
    match k
    case 192 => 31 case 193 => 45 case 194 => 67 case 195 => 216
    case 196 => 183 case 197 => 123 case 198 => 164 case 199 => 118
    case 200 => 196 case 201 => 23 case 202 => 73 case 203 => 236
    case 204 => 127 case 205 => 12 case 206 => 111
    case _ => 246
  }

  function LogD(k: nat): nat {
    match k
    case 208 => 108 case 209 => 161 case 210 => 59 case 211 => 82
    case 212 => 41 case 213 => 157 case 214 => 85 case 215 => 170
    case 216 => 251 case 217 => 96 case 218 => 134 case 219 => 177
    case 220 => 187 case 221 => 204 case 222 => 62
    case _ => 90
  }

  function LogE(k: nat): nat {
    match k
    case 224 => 203 case 225 => 89 case 226 => 95 case 227 => 176
    case 228 => 156 case 229 => 169 case 230 => 160 case 231 => 81
    case 232 => 11 case 233 => 245 case 234 => 22 case 235 => 235
    case 236 => 122 case 237 => 117 case 238 => 44
    case _ => 215
  }

  function LogF(k: nat): nat {
    match k
    case 240 => 79 case 241 => 174 case 242 => 213 case 243 => 233
    case 244 => 230 case 245 => 231 case 246 => 173 case 247 => 232
    case 248 => 116 case 249 => 214 case 250 => 244 case 251 => 234
    case 252 => 168 case 253 => 80 case 254 => 88
    case _ => 175
  }

  /** rs_l12_log: the logarithms of the nonzero bytes. */
  function Log(k: nat): nat {
    match k / 16
    case 0 => Log0(k)
    case 1 => Log1(k)
    case 2 => Log2(k)
    case 3 => Log3(k)
    case 4 => Log4(k)
    case 5 => Log5(k)
    case 6 => Log6(k)
    case 7 => Log7(k)
    case 8 => Log8(k)
    case 9 => Log9(k)
    case 10 => LogA(k)
    case 11 => LogB(k)
    case 12 => LogC(k)
    case 13 => LogD(k)
    case 14 => LogE(k)
    case _ => LogF(k)
  }

  /** Exclusive or with 0x1d, in arithmetic. */
  function Flip(v: nat): nat {
    var r := v % 32;
    32 * (v / 32) + 31 - (if (r / 2) % 2 == 0 then r + 2 else r - 2)
  }

  lemma FlipBits(q: nat, b4: nat, b3: nat, b2: nat, b1: nat, b0: nat)
    requires b4 < 2 && b3 < 2 && b2 < 2 && b1 < 2 && b0 < 2
    ensures Flip(32 * q + 16 * b4 + 8 * b3 + 4 * b2 + 2 * b1 + b0)
         == 32 * q + 16 * (1 - b4) + 8 * (1 - b3) + 4 * (1 - b2) + 2 * b1 + (1 - b0)
  {
    var r := 16 * b4 + 8 * b3 + 4 * b2 + 2 * b1 + b0;
    assert (32 * q + r) % 32 == r && (32 * q + r) / 32 == q;
    assert r / 2 == 8 * b4 + 4 * b3 + 2 * b2 + b1;
  }

  lemma HalfAndBit(v: nat)
    ensures v == 2 * (v / 2) + v % 2
  {
  }

  lemma XorConstant(a: nat, b: nat)
    ensures b % 2 == 1 ==> Xor(a, b) == 2 * Xor(a / 2, b / 2) + 1 - a % 2
    ensures b % 2 == 0 ==> Xor(a, b) == 2 * Xor(a / 2, b / 2) + a % 2
  {
    XorUnfold(a, b);
  }

  lemma FlipIsXor(v: nat)
    ensures Flip(v) == Xor(v, 0x1d)
  {
    hide Xor, Flip;
    var v1 := v / 2;
    var v2 := v1 / 2;
    var v3 := v2 / 2;
    var v4 := v3 / 2;
    XorConstant(v, 29);
    XorConstant(v1, 14);
    XorConstant(v2, 7);
    XorConstant(v3, 3);
    XorConstant(v4, 1);
    XorZero(v4 / 2);
    HalfAndBit(v);
    HalfAndBit(v1);
    HalfAndBit(v2);
    HalfAndBit(v3);
    HalfAndBit(v4);
    FlipBits(v4 / 2, v4 % 2, v3 % 2, v2 % 2, v1 % 2, v % 2);
  }

  /** Multiplication by alpha, in arithmetic. */
  function Next(v: nat): nat {
    if v < 128 then 2 * v else if v < 256 then Flip(2 * v - 256) else 0
  }

  lemma NextIsX(v: nat)
    requires v < 256
    ensures Next(v) == X(v)
  {
    hide Xor, Flip;
    if v >= 128 {
      FlipIsXor(2 * v - 256);
    }
  }

  lemma AlogFrom0(k: nat)
    requires 0 <= k < 8
    ensures 0 < Alog(k) < 256 && Alog(k + 1) == Next(Alog(k))
  {
  }

  lemma AlogFrom8(k: nat)
    requires 8 <= k < 16
    ensures 0 < Alog(k) < 256 && Alog(k + 1) == Next(Alog(k))
  {
  }

  lemma AlogFrom16(k: nat)
    requires 16 <= k < 24
    ensures 0 < Alog(k) < 256 && Alog(k + 1) == Next(Alog(k))
  {
  }

  lemma AlogFrom24(k: nat)
    requires 24 <= k < 32
    ensures 0 < Alog(k) < 256 && Alog(k + 1) == Next(Alog(k))
  {
  }

  lemma AlogFrom32(k: nat)
    requires 32 <= k < 40
    ensures 0 < Alog(k) < 256 && Alog(k + 1) == Next(Alog(k))
  {
  }

  lemma AlogFrom40(k: nat)
    requires 40 <= k < 48
    ensures 0 < Alog(k) < 256 && Alog(k + 1) == Next(Alog(k))
  {
  }

  lemma AlogFrom48(k: nat)
    requires 48 <= k < 56
    ensures 0 < Alog(k) < 256 && Alog(k + 1) == Next(Alog(k))
  {
  }

  lemma AlogFrom56(k: nat)
    requires 56 <= k < 64
    ensures 0 < Alog(k) < 256 && Alog(k + 1) == Next(Alog(k))
  {
  }

  lemma AlogFrom64(k: nat)
    requires 64 <= k < 72
    ensures 0 < Alog(k) < 256 && Alog(k + 1) == Next(Alog(k))
  {
  }

  lemma AlogFrom72(k: nat)
    requires 72 <= k < 80
    ensures 0 < Alog(k) < 256 && Alog(k + 1) == Next(Alog(k))
  {
  }

  lemma AlogFrom80(k: nat)
    requires 80 <= k < 88
    ensures 0 < Alog(k) < 256 && Alog(k + 1) == Next(Alog(k))
  {
  }

  lemma AlogFrom88(k: nat)
    requires 88 <= k < 96
    ensures 0 < Alog(k) < 256 && Alog(k + 1) == Next(Alog(k))
  {
  }

  lemma AlogFrom96(k: nat)
    requires 96 <= k < 104
    ensures 0 < Alog(k) < 256 && Alog(k + 1) == Next(Alog(k))
  {
  }

  lemma AlogFrom104(k: nat)
    requires 104 <= k < 112
    ensures 0 < Alog(k) < 256 && Alog(k + 1) == Next(Alog(k))
  {
  }

  lemma AlogFrom112(k: nat)
    requires 112 <= k < 120
    ensures 0 < Alog(k) < 256 && Alog(k + 1) == Next(Alog(k))
  {
  }

  lemma AlogFrom120(k: nat)
    requires 120 <= k < 128
    ensures 0 < Alog(k) < 256 && Alog(k + 1) == Next(Alog(k))
  {
  }

  lemma AlogFrom128(k: nat)
    requires 128 <= k < 136
    ensures 0 < Alog(k) < 256 && Alog(k + 1) == Next(Alog(k))
  {
  }

  lemma AlogFrom136(k: nat)
    requires 136 <= k < 144
    ensures 0 < Alog(k) < 256 && Alog(k + 1) == Next(Alog(k))
  {
  }

  lemma AlogFrom144(k: nat)
    requires 144 <= k < 152
    ensures 0 < Alog(k) < 256 && Alog(k + 1) == Next(Alog(k))
  {
  }

  lemma AlogFrom152(k: nat)
    requires 152 <= k < 160
    ensures 0 < Alog(k) < 256 && Alog(k + 1) == Next(Alog(k))
  {
  }

  lemma AlogFrom160(k: nat)
    requires 160 <= k < 168
    ensures 0 < Alog(k) < 256 && Alog(k + 1) == Next(Alog(k))
  {
  }

  lemma AlogFrom168(k: nat)
    requires 168 <= k < 176
    ensures 0 < Alog(k) < 256 && Alog(k + 1) == Next(Alog(k))
  {
  }

  lemma AlogFrom176(k: nat)
    requires 176 <= k < 184
    ensures 0 < Alog(k) < 256 && Alog(k + 1) == Next(Alog(k))
  {
  }

  lemma AlogFrom184(k: nat)
    requires 184 <= k < 192
    ensures 0 < Alog(k) < 256 && Alog(k + 1) == Next(Alog(k))
  {
  }

  lemma AlogFrom192(k: nat)
    requires 192 <= k < 200
    ensures 0 < Alog(k) < 256 && Alog(k + 1) == Next(Alog(k))
  {
  }

  lemma AlogFrom200(k: nat)
    requires 200 <= k < 208
    ensures 0 < Alog(k) < 256 && Alog(k + 1) == Next(Alog(k))
  {
  }

  lemma AlogFrom208(k: nat)
    requires 208 <= k < 216
    ensures 0 < Alog(k) < 256 && Alog(k + 1) == Next(Alog(k))
  {
  }

  lemma AlogFrom216(k: nat)
    requires 216 <= k < 224
    ensures 0 < Alog(k) < 256 && Alog(k + 1) == Next(Alog(k))
  {
  }

  lemma AlogFrom224(k: nat)
    requires 224 <= k < 232
    ensures 0 < Alog(k) < 256 && Alog(k + 1) == Next(Alog(k))
  {
  }

  lemma AlogFrom232(k: nat)
    requires 232 <= k < 240
    ensures 0 < Alog(k) < 256 && Alog(k + 1) == Next(Alog(k))
  {
  }

  lemma AlogFrom240(k: nat)
    requires 240 <= k < 248
    ensures 0 < Alog(k) < 256 && Alog(k + 1) == Next(Alog(k))
  {
  }

  lemma AlogFrom248(k: nat)
    requires 248 <= k < 254
    ensures 0 < Alog(k) < 256 && Alog(k + 1) == Next(Alog(k))
  {
  }

  lemma LogRow0(v: nat)
    requires 1 <= v < 16
    ensures Log(v) < 255 && Alog(Log(v)) == v
  {
  }

  lemma LogRow1(v: nat)
    requires 16 <= v < 32
    ensures Log(v) < 255 && Alog(Log(v)) == v
  {
  }

  lemma LogRow2(v: nat)
    requires 32 <= v < 48
    ensures Log(v) < 255 && Alog(Log(v)) == v
  {
  }

  lemma LogRow3(v: nat)
    requires 48 <= v < 64
    ensures Log(v) < 255 && Alog(Log(v)) == v
  {
  }

  lemma LogRow4(v: nat)
    requires 64 <= v < 80
    ensures Log(v) < 255 && Alog(Log(v)) == v
  {
  }

  lemma LogRow5(v: nat)
    requires 80 <= v < 96
    ensures Log(v) < 255 && Alog(Log(v)) == v
  {
  }

  lemma LogRow6(v: nat)
    requires 96 <= v < 112
    ensures Log(v) < 255 && Alog(Log(v)) == v
  {
  }

  lemma LogRow7(v: nat)
    requires 112 <= v < 128
    ensures Log(v) < 255 && Alog(Log(v)) == v
  {
  }

  lemma LogRow8(v: nat)
    requires 128 <= v < 144
    ensures Log(v) < 255 && Alog(Log(v)) == v
  {
  }

  lemma LogRow9(v: nat)
    requires 144 <= v < 160
    ensures Log(v) < 255 && Alog(Log(v)) == v
  {
  }

  lemma LogRowA(v: nat)
    requires 160 <= v < 176
    ensures Log(v) < 255 && Alog(Log(v)) == v
  {
  }

  lemma LogRowB(v: nat)
    requires 176 <= v < 192
    ensures Log(v) < 255 && Alog(Log(v)) == v
  {
  }

  lemma LogRowC(v: nat)
    requires 192 <= v < 208
    ensures Log(v) < 255 && Alog(Log(v)) == v
  {
  }

  lemma LogRowD(v: nat)
    requires 208 <= v < 224
    ensures Log(v) < 255 && Alog(Log(v)) == v
  {
  }

  lemma LogRowE(v: nat)
    requires 224 <= v < 240
    ensures Log(v) < 255 && Alog(Log(v)) == v
  {
  }

  lemma LogRowF(v: nat)
    requires 240 <= v < 256
    ensures Log(v) < 255 && Alog(Log(v)) == v
  {
  }

  lemma LastPower()
    ensures Alog(254) == 142 && Alog(0) == 1 && Next(142) == 1
  {
  }

  /** Each entry of the power table is alpha times the one before, and the
      last one leads back to 1. */
  lemma AlogSteps(k: nat)
    requires k < 255
    ensures 0 < Alog(k) < 256
    ensures X(Alog(k)) == Alog(if k == 254 then 0 else k + 1)
  {
    hide Xor, Flip, Next, X, Alog0, Alog1, Alog2, Alog3, Alog4, Alog5, Alog6, Alog7, Alog8, Alog9, AlogA, AlogB, AlogC,
         AlogD, AlogE, AlogF, Alog;
    if k == 254 {
      assert Alog(254) == 142 && Alog(0) == 1 && Next(142) == 1 by { LastPower(); }
    } else {
      match k / 8
      case 0 => AlogFrom0(k);
      case 1 => AlogFrom8(k);
      case 2 => AlogFrom16(k);
      case 3 => AlogFrom24(k);
      case 4 => AlogFrom32(k);
      case 5 => AlogFrom40(k);
      case 6 => AlogFrom48(k);
      case 7 => AlogFrom56(k);
      case 8 => AlogFrom64(k);
      case 9 => AlogFrom72(k);
      case 10 => AlogFrom80(k);
      case 11 => AlogFrom88(k);
      case 12 => AlogFrom96(k);
      case 13 => AlogFrom104(k);
      case 14 => AlogFrom112(k);
      case 15 => AlogFrom120(k);
      case 16 => AlogFrom128(k);
      case 17 => AlogFrom136(k);
      case 18 => AlogFrom144(k);
      case 19 => AlogFrom152(k);
      case 20 => AlogFrom160(k);
      case 21 => AlogFrom168(k);
      case 22 => AlogFrom176(k);
      case 23 => AlogFrom184(k);
      case 24 => AlogFrom192(k);
      case 25 => AlogFrom200(k);
      case 26 => AlogFrom208(k);
      case 27 => AlogFrom216(k);
      case 28 => AlogFrom224(k);
      case 29 => AlogFrom232(k);
      case 30 => AlogFrom240(k);
      case _ => AlogFrom248(k);
    }
    NextIsX(Alog(k));
  }

  /** The logarithm table inverts the power table. */
  lemma LogInverts(v: nat)
    requires 0 < v < 256
    ensures Log(v) < 255 && Alog(Log(v)) == v
  {
    hide Alog0, Log0, Alog1, Log1, Alog2, Log2, Alog3, Log3, Alog4, Log4, Alog5, Log5, Alog6, Log6, Alog7, Log7, Alog8,
         Log8, Alog9, Log9, AlogA, LogA, AlogB, LogB, AlogC, LogC, AlogD, LogD, AlogE, LogE, AlogF, LogF, Alog, Log;
    match v / 16
    case 0 => LogRow0(v);
    case 1 => LogRow1(v);
    case 2 => LogRow2(v);
    case 3 => LogRow3(v);
    case 4 => LogRow4(v);
    case 5 => LogRow5(v);
    case 6 => LogRow6(v);
    case 7 => LogRow7(v);
    case 8 => LogRow8(v);
    case 9 => LogRow9(v);
    case 10 => LogRowA(v);
    case 11 => LogRowB(v);
    case 12 => LogRowC(v);
    case 13 => LogRowD(v);
    case 14 => LogRowE(v);
    case _ => LogRowF(v);
  }

  // ----- multiplication by powers of alpha

  lemma XByte(v: nat)
    requires v < 256
    ensures X(v) < 256
  {
    if v >= 128 {
      XorByte(2 * v - 256, 0x1d);
    }
  }

  /** v times alpha to the k. */
  function Times(v: nat, k: nat): (w: nat)
    requires v < 256
    ensures w < 256
  {
    if k == 0 then v else
    XByte(Times(v, k - 1));
    X(Times(v, k - 1))
  }

  lemma {:induction false} TimesAdd(v: nat, a: nat, b: nat)
    requires v < 256
    ensures Times(Times(v, a), b) == Times(v, a + b)
    decreases b
  {
    hide X;
    if b > 0 {
      TimesAdd(v, a, b - 1);
    }
  }

  lemma TimesZero(v: nat)
    requires v < 256
    ensures Times(v, 0) == v
  {
  }

  lemma TimesStep(v: nat, k: nat)
    requires v < 256 && k > 0
    ensures Times(v, k) == X(Times(v, k - 1))
  {
    hide X;
  }

  lemma {:induction false} AlogIsPower(k: nat)
    requires k < 255
    ensures Times(1, k) == Alog(k)
  {
    hide X, Alog, Times;
    if k == 0 {
      assert Alog(0) == 1 by { LastPower(); }
      TimesZero(1);
    } else {
      AlogIsPower(k - 1);
      AlogSteps(k - 1);
      TimesStep(1, k);
    }
  }

  /** Every nonzero byte is a power of alpha. */
  lemma LogIsLog(v: nat)
    requires 0 < v < 256
    ensures Log(v) < 255 && Times(1, Log(v)) == v
  {
    hide Log, Alog, Times;
    LogInverts(v);
    AlogIsPower(Log(v));
  }

  lemma {:induction false} TimesOfZero(k: nat)
    ensures Times(0, k) == 0
  {
    if k > 0 {
      TimesOfZero(k - 1);
    }
  }

  /** The powers of alpha repeat after 255 steps. */
  lemma TimesPeriod(v: nat)
    requires v < 256
    ensures Times(v, 255) == v
  {
    hide Log, Alog, Times, X;
    assert Times(1, 255) == 1 by {
      AlogIsPower(254);
      AlogSteps(254);
      TimesStep(1, 255);
      LastPower();
    }
    if v == 0 {
      TimesOfZero(255);
    } else {
      LogIsLog(v);
      TimesAdd(1, Log(v), 255);
      TimesAdd(1, 255, Log(v));
    }
  }

  /** What the encoder does with its tables: add logarithms, reduce once,
      look the power up. */
  function TableTimes(v: nat, k: nat): nat
    requires v < 256
  {
    if v == 0 then 0 else
    var sum := Log(v) + k;
    Alog(if sum >= 255 then sum - 255 else sum)
  }

  lemma TableTimesIsTimes(v: nat, k: nat)
    requires v < 256 && k < 255
    ensures TableTimes(v, k) == Times(v, k)
  {
    hide Log, Alog, Times;
    if v == 0 {
      TimesOfZero(k);
    } else {
      LogIsLog(v);
      TimesAdd(1, Log(v), k);
      var sum := Log(v) + k;
      if sum >= 255 {
        AlogIsPower(sum - 255);
        TimesAdd(1, 255, sum - 255);
        TimesPeriod(1);
      } else {
        AlogIsPower(sum);
      }
    }
  }

  // ----- linearity

  lemma XorDouble(a: nat, b: nat)
    ensures Xor(2 * a, 2 * b) == 2 * Xor(a, b)
  {
    XorUnfold(2 * a, 2 * b);
  }

  /** The reduction polynomial, x^8 included. */
  function Reduce(v: nat): nat { if v >= 128 then 0x11d else 0 }

  lemma {:induction false} XorHigh(v: nat, w: nat, n: nat)
    requires v < Pow2(n) && w < Pow2(n)
    ensures Xor(Pow2(n) + v, w) == Pow2(n) + Xor(v, w)
    ensures Xor(Pow2(n) + v, Pow2(n) + w) == Xor(v, w)
    decreases n
  {
    hide Xor;
    XorUnfold(Pow2(n) + v, w);
    XorUnfold(Pow2(n) + v, Pow2(n) + w);
    XorUnfold(v, w);
    if n == 0 {
      XorZero(0);
    } else {
      XorHigh(v / 2, w / 2, n - 1);
      assert (Pow2(n) + v) / 2 == Pow2(n - 1) + v / 2 && (Pow2(n) + w) / 2 == Pow2(n - 1) + w / 2;
    }
  }

  lemma Powers()
    ensures Pow2(7) == 128 && Pow2(8) == 256
  {
    assert Pow2(3) == 8;
    assert Pow2(5) == 32;
  }

  lemma XIsReduced(v: nat)
    requires v < 256
    ensures X(v) == Xor(2 * v, Reduce(v))
  {
    hide Xor;
    if v >= 128 {
      Powers();
      XorHigh(2 * v - 256, 0x1d, 8);
    } else {
      XorZero(2 * v);
    }
  }

  /** The top bit of the exclusive or of two bytes. */
  lemma TopBit(a: nat, b: nat)
    requires a < 256 && b < 256
    ensures Xor(a, b) >= 128 <==> (a >= 128) != (b >= 128)
  {
    hide Xor;
    Powers();
    var x, y := a % 128, b % 128;
    XorBound(x, y, 7);
    XorHigh(x, y, 7);
    XorHigh(y, x, 7);
    XorCommutes(a, b);
    XorCommutes(x, y);
    assert a == x || a == 128 + x;
    assert b == y || b == 128 + y;
  }

  lemma ReduceLinear(a: nat, b: nat)
    requires a < 256 && b < 256
    ensures Xor(a, b) < 256
    ensures Reduce(Xor(a, b)) == Xor(Reduce(a), Reduce(b))
  {
    hide Xor;
    XorByte(a, b);
    XorSelf(0x11d);
    XorZero(0x11d);
    XorZero(0);
    TopBit(a, b);
  }

  lemma XLinear(a: nat, b: nat)
    requires a < 256 && b < 256
    ensures Xor(a, b) < 256 && X(Xor(a, b)) == Xor(X(a), X(b))
  {
    hide Xor, X, Reduce;
    ReduceLinear(a, b);
    XIsReduced(a);
    XIsReduced(b);
    XIsReduced(Xor(a, b));
    XorDouble(a, b);
    XorSwapsMiddle(2 * a, 2 * b, Reduce(a), Reduce(b));
  }

  lemma {:induction false} TimesLinear(a: nat, b: nat, k: nat)
    requires a < 256 && b < 256
    ensures Xor(a, b) < 256 && Times(Xor(a, b), k) == Xor(Times(a, k), Times(b, k))
    decreases k
  {
    hide Xor, X;
    XorByte(a, b);
    if k > 0 {
      TimesLinear(a, b, k - 1);
      XLinear(Times(a, k - 1), Times(b, k - 1));
    }
  }

  /** Sum of three multiples of v. */
  function Three(v: nat, a: nat, b: nat, c: nat): nat
    requires v < 256
  {
    Xor(Times(v, a), Xor(Times(v, b), Times(v, c)))
  }

  lemma Shuffle(a: nat, n: nat)
    ensures Times(Times(1, n), a) == Times(Times(1, a), n)
  {
    hide Times;
    TimesAdd(1, n, a);
    TimesAdd(1, a, n);
  }

  /** If three powers of alpha add up to zero, so do those multiples of any
      byte. */
  lemma ThreeVanish(v: nat, a: nat, b: nat, c: nat)
    requires v < 256 && Three(1, a, b, c) == 0
    ensures Three(v, a, b, c) == 0
  {
    hide Xor, Times, Log;
    if v == 0 {
      TimesOfZero(a);
      TimesOfZero(b);
      TimesOfZero(c);
      XorZero(0);
    } else {
      LogIsLog(v);
      var n := Log(v);
      Shuffle(a, n);
      Shuffle(b, n);
      Shuffle(c, n);
      var s := Xor(Times(1, b), Times(1, c));
      TimesLinear(Times(1, b), Times(1, c), n);
      TimesLinear(Times(1, a), s, n);
      TimesOfZero(n);
    }
  }

  lemma XNonzero(v: nat)
    requires 0 < v < 256
    ensures X(v) != 0
  {
    hide Alog, Log, X;
    LogInverts(v);
    AlogSteps(Log(v));
    AlogSteps(if Log(v) == 254 then 0 else Log(v) + 1);
  }

  lemma {:induction false} TimesNonzero(v: nat, k: nat)
    requires 0 < v < 256
    ensures Times(v, k) != 0
    decreases k
  {
    hide X;
    if k > 0 {
      TimesNonzero(v, k - 1);
      XNonzero(Times(v, k - 1));
    }
  }

  /** The power table holds 1 only at 0. */
  lemma OnlyZeroIsOne(d: nat)
    requires 0 < d < 255
    ensures Alog(d) != 1
  {
  }

  /** Only the zeroth power of alpha below 255 fixes a nonzero byte. */
  lemma FixedPoint(v: nat, d: nat)
    requires 0 < v < 256 && 0 < d < 255
    ensures Times(v, d) != v
  {
    hide Times, Log, Alog;
    if Times(v, d) == v {
      LogIsLog(v);
      var n := Log(v);
      // undo the multiplication by v
      TimesAdd(1, n, d);
      TimesAdd(1, n + d, 255 - n);
      TimesAdd(1, n, 255 - n);
      TimesAdd(1, 255, d);
      TimesPeriod(1);
      AlogIsPower(d);
      assert Alog(d) == 1;
      OnlyZeroIsOne(d);
    }
  }

  /** Distinct powers below 255 of a nonzero byte are distinct. */
  lemma {:induction false} TimesInjective(v: nat, a: nat, b: nat)
    requires 0 < v < 256 && a < b < 255
    ensures Times(v, a) != Times(v, b)
  {
    hide Times, Log;
    if Times(v, a) == Times(v, b) {
      TimesNonzero(v, a);
      var w := Times(v, a);
      TimesAdd(v, a, b - a);
      FixedPoint(w, b - a);
    }
  }
}
