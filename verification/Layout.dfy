/** The scanout layout (native_layout.hpp) and the legacy Y-tiled address map it is for. */
module Layout {
  import opened Words
  import opened Checks

  datatype Status = OK | BadGeometry | UnsupportedFormat | UnsupportedTileMode | UnsupportedPlanes | PitchMismatch
    | PitchAlignment | StrideOverflow | OffsetUnsupported | BackingTooShort | CompressionUnsupported | StorageUnknown

  datatype Input = Input(
    width: nat, height: nat, surfacePitch: nat, fourcc: nat, planeCount: nat, tileMode: nat, resourceFormat: nat,
    rowA: nat, rowB: nat, clientOffset: nat, planeOffset: nat, backingLength: nat, storageKnown: bool, compressed: bool)

  datatype Plan = Plan(
    status: Status, tileWidthBytes: nat, tileHeight: nat, storageHeight: nat, pitchBytes: nat,
    planeTilingBits: nat, planeStride: nat, baseAlignment: nat, requiredBytes: nat)

  const EMPTY := Plan(BadGeometry, 0, 0, 0, 0, 0, 0, 0, 0)

  const UINT32 := 0x1_0000_0000

  /** Tile width, height, plane control bits and base alignment of the three known modes. */
  function Tiles(mode: nat): Option<(nat, nat, nat, nat)> {
    if mode == 0 then Some((64, 1, 0, 256 * 1024))
    else if mode == 2 then Some((512, 8, 0x400, 256 * 1024))
    else if mode == 3 then Some((128, 32, 0x1000, 1024 * 1024))
    else None
  }

  function Row(i: Input): nat { if i.rowA != 0 then i.rowA else i.rowB }

  /** What a surface must be for a plan: the current mode, one BGRA plane, a pitch both sides agree on
      that is whole tiles and fits the stride register, no offset, no compression, and room for all
      tile rows. */
  predicate Fits(i: Input) {
    i.width == 1920 && i.height == 1080 && i.fourcc == 0x42475241 && i.resourceFormat == 0xc0 && i.planeCount <= 1 &&
    Tiles(i.tileMode).Some? &&
    var (w, h, _, _) := Tiles(i.tileMode).value;
    Row(i) == i.surfacePitch && 1920 * 4 <= Row(i) < UINT32 && Row(i) % w == 0 && Row(i) / w <= 0xfff &&
    i.clientOffset == 0 && i.planeOffset == 0 && i.storageKnown && !i.compressed &&
    Row(i) * ((1080 + h - 1) / h * h) <= i.backingLength
  }

  /** The bytes all tile rows take, when the tile mode is known. */
  function Storage(i: Input): nat {
    match Tiles(i.tileMode)
    case None => 0
    case Some((_, h, _, _)) => Row(i) * ((1080 + h - 1) / h * h)
  }

  function TileWidth(i: Input): (w: nat)
    ensures w > 0
  {
    match Tiles(i.tileMode) case None => 1 case Some((w, _, _, _)) => w
  }

  /** The checks of the surface, in the source's order. */
  function SurfaceChecks(i: Input): seq<Check<Status>> {
    [Check(i.width == 1920 && i.height == 1080, BadGeometry),
     Check(i.fourcc == 0x42475241 && i.resourceFormat == 0xc0, UnsupportedFormat),
     Check(i.planeCount <= 1, UnsupportedPlanes), Check(Tiles(i.tileMode).Some?, UnsupportedTileMode),
     Check(Row(i) == i.surfacePitch && 1920 * 4 <= Row(i) < UINT32, PitchMismatch),
     Check(Row(i) % TileWidth(i) == 0, PitchAlignment), Check(0 < Row(i) / TileWidth(i) <= 0xfff, StrideOverflow)]
  }

  /** The checks of its storage, behind them. */
  function StorageChecks(i: Input): seq<Check<Status>> {
    [Check(i.clientOffset == 0 && i.planeOffset == 0, OffsetUnsupported),
     Check(Storage(i) <= i.backingLength, BackingTooShort), Check(i.storageKnown, StorageUnknown),
     Check(!i.compressed, CompressionUnsupported)]
  }

  /** All the checks in the source's order. */
  function InOrder(i: Input): seq<Check<Status>> { SurfaceChecks(i) + StorageChecks(i) }

  /** What the checks of the surface come to. */
  function SurfaceStatus(i: Input): Status {
    if i.width != 1920 || i.height != 1080 then BadGeometry
    else if i.fourcc != 0x42475241 || i.resourceFormat != 0xc0 then UnsupportedFormat
    else if i.planeCount > 1 then UnsupportedPlanes
    else if Tiles(i.tileMode).None? then UnsupportedTileMode
    else if Row(i) != i.surfacePitch || Row(i) < 1920 * 4 || Row(i) >= UINT32 then PitchMismatch
    else if Row(i) % TileWidth(i) != 0 then PitchAlignment
    else if Row(i) / TileWidth(i) == 0 || Row(i) / TileWidth(i) > 0xfff then StrideOverflow
    else OK
  }

  lemma SurfaceVerdict(i: Input)
    ensures Verdict(InOrder(i), OK)
            == if SurfaceStatus(i) == OK then Verdict(StorageChecks(i), OK) else SurfaceStatus(i)
  {
    FirstOfSurface(i, SurfaceChecks(i));
    VerdictAppend(SurfaceChecks(i), StorageChecks(i), OK);
  }

  lemma FirstOfSurface(i: Input, checks: seq<Check<Status>>)
    requires checks == SurfaceChecks(i)
    ensures Verdict(checks, OK) == SurfaceStatus(i) && (AllPass(checks) <==> SurfaceStatus(i) == OK)
  {
    if i.width != 1920 || i.height != 1080 {
      assert FirstFailing(checks, 0);
    } else if i.fourcc != 0x42475241 || i.resourceFormat != 0xc0 {
      assert FirstFailing(checks, 1);
    } else if i.planeCount > 1 {
      assert FirstFailing(checks, 2);
    } else if Tiles(i.tileMode).None? {
      assert FirstFailing(checks, 3);
    } else if Row(i) != i.surfacePitch || Row(i) < 1920 * 4 || Row(i) >= UINT32 {
      assert FirstFailing(checks, 4);
    } else if Row(i) % TileWidth(i) != 0 {
      assert FirstFailing(checks, 5);
    } else if Row(i) / TileWidth(i) == 0 || Row(i) / TileWidth(i) > 0xfff {
      assert FirstFailing(checks, 6);
    } else {
      assert AllPass(checks);
    }
  }

  /** A plan, on the numbers: tiles of 64 bytes by 1 row, 512 by 8 or 128 by 32, for the modes 0, 2 and 3;
      the plane control bits 0, 1 << 10 and 4 << 10; bases aligned to 256 KiB, or 1 MiB for the last. */
  lemma PlanOnNumbers(i: Input, p: Plan)
    requires Fits(i)
    requires var (w, h, bits, align) := Tiles(i.tileMode).value;
             p == Plan(OK, w, h, (1080 + h - 1) / h * h, Row(i), bits, Row(i) / w, align,
                 Row(i) * ((1080 + h - 1) / h * h))
    ensures forall va: nat :: BaseSuitable(p, va) <==>
              va % (if i.tileMode == 3 then 0x10_0000 else 0x4_0000) == 0 && va + p.requiredBytes <= 0x1_0000_0000
    ensures i.tileMode in {0, 2, 3} && p.pitchBytes == i.surfacePitch == p.planeStride * p.tileWidthBytes
    ensures i.tileMode == 0 ==>
              p == Plan(OK, 64, 1, 1080, i.surfacePitch, 0, p.planeStride, 0x4_0000, i.surfacePitch * 1080)
    ensures i.tileMode == 2 ==>
              p == Plan(OK, 512, 8, 1080, i.surfacePitch, 0x400, p.planeStride, 0x4_0000, i.surfacePitch * 1080)
    ensures i.tileMode == 3 ==>
              p == Plan(OK, 128, 32, 1088, i.surfacePitch, 0x1000, p.planeStride, 0x10_0000, i.surfacePitch * 1088)
  {
  }

  /** A surface gets a plan exactly if it is 1920 by 1080 in one BGRA plane, in a known tile mode, of a
      pitch both sides agree on that is between 30 and 4095 tiles of the mode, with nothing offset or
      compressed and room for all tile rows. */
  lemma FitsOnNumbers(i: Input)
    ensures Fits(i) <==>
            (i.width == 1920 && i.height == 1080 && i.fourcc == 0x42475241 && i.resourceFormat == 0xC0 &&
             i.planeCount <= 1 && i.clientOffset == 0 && i.planeOffset == 0 && i.storageKnown && !i.compressed &&
             (i.surfacePitch == i.rowA || (i.rowA == 0 && i.surfacePitch == i.rowB)) && i.surfacePitch >= 7680 &&
             ((i.tileMode == 0 && i.surfacePitch % 64 == 0 && i.surfacePitch <= 262080 &&
               i.surfacePitch * 1080 <= i.backingLength) ||
              (i.tileMode == 2 && i.surfacePitch % 512 == 0 && i.surfacePitch <= 2096640 &&
               i.surfacePitch * 1080 <= i.backingLength) ||
              (i.tileMode == 3 && i.surfacePitch % 128 == 0 && i.surfacePitch <= 524160 &&
               i.surfacePitch * 1088 <= i.backingLength)))
  {
  }

  lemma RefusalOnNumbers(i: Input, status: Status)
    requires if SurfaceStatus(i) != OK then status == SurfaceStatus(i)
             else status in {OK, OffsetUnsupported, BackingTooShort, StorageUnknown, CompressionUnsupported}
    requires status == BackingTooShort ==> Storage(i) > i.backingLength
    ensures status == BadGeometry <==> i.width != 1920 || i.height != 1080
    ensures status == UnsupportedTileMode ==> i.tileMode !in {0, 2, 3}
    ensures status == PitchMismatch ==>
              (if i.rowA != 0 then i.surfacePitch != i.rowA else i.surfacePitch != i.rowB) || i.surfacePitch < 7680 ||
              i.surfacePitch > 0xFFFF_FFFF
    ensures status == PitchAlignment ==>
              (i.tileMode == 0 && i.surfacePitch % 64 != 0) || (i.tileMode == 2 && i.surfacePitch % 512 != 0) ||
              (i.tileMode == 3 && i.surfacePitch % 128 != 0)
    ensures status == StrideOverflow ==>
              (i.tileMode == 0 && i.surfacePitch > 262080) || (i.tileMode == 2 && i.surfacePitch > 2096640) ||
              (i.tileMode == 3 && i.surfacePitch > 524160)
    ensures status == BackingTooShort ==> i.surfacePitch * (if i.tileMode == 3 then 1088 else 1080) > i.backingLength
  {
  }

  /** Fill the plan field by field; the first check that fails decides the status. */
  method Describe(i: Input) returns (p: Plan)
    ensures p.status == Verdict(InOrder(i), OK)
    ensures p.status == OK <==> Fits(i)
    ensures p.status == OK ==>
              var (w, h, bits, align) := Tiles(i.tileMode).value;
              p == Plan(OK, w, h, (1080 + h - 1) / h * h, Row(i), bits, Row(i) / w, align,
                  Row(i) * ((1080 + h - 1) / h * h))
    ensures p.status == BadGeometry <==> i.width != 1920 || i.height != 1080
    ensures p.status == UnsupportedTileMode ==> i.tileMode !in {0, 2, 3}
    ensures p.status == PitchMismatch ==>
              (if i.rowA != 0 then i.surfacePitch != i.rowA else i.surfacePitch != i.rowB) || i.surfacePitch < 7680 ||
              i.surfacePitch > 0xFFFF_FFFF
    ensures p.status == PitchAlignment ==>
              (i.tileMode == 0 && i.surfacePitch % 64 != 0) || (i.tileMode == 2 && i.surfacePitch % 512 != 0) ||
              (i.tileMode == 3 && i.surfacePitch % 128 != 0)
    ensures p.status == StrideOverflow ==>
              (i.tileMode == 0 && i.surfacePitch > 262080) || (i.tileMode == 2 && i.surfacePitch > 2096640) ||
              (i.tileMode == 3 && i.surfacePitch > 524160)
    ensures p.status == BackingTooShort ==> i.surfacePitch * (if i.tileMode == 3 then 1088 else 1080) > i.backingLength
  {
    p := Fill(i);
    RefusalOnNumbers(i, p.status);
  }

  method Fill(i: Input) returns (p: Plan)
    ensures p.status == Verdict(InOrder(i), OK)
    ensures p.status == OK <==> Fits(i)
    ensures p.status == OK ==>
              var (w, h, bits, align) := Tiles(i.tileMode).value;
              p == Plan(OK, w, h, (1080 + h - 1) / h * h, Row(i), bits, Row(i) / w, align,
                  Row(i) * ((1080 + h - 1) / h * h))
    ensures if SurfaceStatus(i) != OK then p.status == SurfaceStatus(i)
            else p.status in {OK, OffsetUnsupported, BackingTooShort, StorageUnknown, CompressionUnsupported}
    ensures p.status == BackingTooShort ==> Storage(i) > i.backingLength
  {
    SurfaceVerdict(i);
    FitsInParts(i);
    var status;
    status, p := FillSurface(i);
    if status != OK { return p.(status := status); }
    p := DescribeStorage(i, p);
  }

  lemma FitsInParts(i: Input)
    ensures Fits(i) <==>
            SurfaceStatus(i) == OK && i.clientOffset == 0 && i.planeOffset == 0 && Storage(i) <= i.backingLength &&
            i.storageKnown && !i.compressed
  {
  }

  /** Format, tiles, pitch and stride. */
  method FillSurface(i: Input) returns (status: Status, p: Plan)
    ensures status == SurfaceStatus(i)
    ensures status == OK ==>
              i.height == 1080 && Tiles(i.tileMode).Some? &&
              var (w, h, bits, align) := Tiles(i.tileMode).value;
              p == EMPTY.(tileWidthBytes := w, tileHeight := h, planeTilingBits := bits, baseAlignment := align,
                  pitchBytes := Row(i), planeStride := Row(i) / w)
  {
    p := EMPTY;
    if i.width != 1920 || i.height != 1080 { return BadGeometry, p; }
    if i.fourcc != 0x42475241 || i.resourceFormat != 0xc0 { return UnsupportedFormat, p; }
    if i.planeCount > 1 { return UnsupportedPlanes, p; }
    match Tiles(i.tileMode)
    case None => return UnsupportedTileMode, p;
    case Some((w, h, bits, align)) =>
      p := p.(tileWidthBytes := w, tileHeight := h, planeTilingBits := bits, baseAlignment := align);
    var row := if i.rowA != 0 then i.rowA else i.rowB;
    if row != i.surfacePitch || row < i.width * 4 || row >= UINT32 { return PitchMismatch, p; }
    p := p.(pitchBytes := row);
    if row % p.tileWidthBytes != 0 { return PitchAlignment, p; }
    p := p.(planeStride := p.pitchBytes / p.tileWidthBytes);
    if p.planeStride == 0 || p.planeStride > 0xfff { return StrideOverflow, p; }
    status := OK;
  }

  /** The rows of storage the surface needs, and the checks on them. */
  method DescribeStorage(i: Input, start: Plan) returns (p: Plan)
    requires Tiles(i.tileMode).Some? && start.tileHeight == Tiles(i.tileMode).value.1 && start.pitchBytes == Row(i)
    requires i.height == 1080
    ensures p.status == Verdict(StorageChecks(i), OK)
    ensures p.status == OK <==>
              i.clientOffset == 0 && i.planeOffset == 0 && Storage(i) <= i.backingLength && i.storageKnown &&
              !i.compressed
    ensures p.status in {OK, OffsetUnsupported, BackingTooShort, StorageUnknown, CompressionUnsupported}
    ensures p.status == BackingTooShort ==> Storage(i) > i.backingLength
    ensures p.status == OK ==>
              var h := start.tileHeight;
              p == start.(status := OK, storageHeight := (1080 + h - 1) / h * h, requiredBytes := Storage(i))
  {
    p := start;
    ghost var checks := StorageChecks(i);
    if i.clientOffset != 0 || i.planeOffset != 0 {
      assert FirstFailing(checks, 0);
      return p.(status := OffsetUnsupported);
    }
    p := p.(storageHeight := (i.height + p.tileHeight - 1) / p.tileHeight * p.tileHeight);
    p := p.(requiredBytes := p.pitchBytes * p.storageHeight);
    if p.requiredBytes > i.backingLength { assert FirstFailing(checks, 1); return p.(status := BackingTooShort); }
    if !i.storageKnown { assert FirstFailing(checks, 2); return p.(status := StorageUnknown); }
    if i.compressed { assert FirstFailing(checks, 3); return p.(status := CompressionUnsupported); }
    assert AllPass(checks);
    p := p.(status := OK);
  }

  predicate BaseSuitable(p: Plan, va: nat) {
    p.status == OK && p.baseAlignment != 0 && va % p.baseAlignment == 0 && va < UINT32 && p.requiredBytes <= UINT32 - va
  }

  // ---- legacy Y tiles ----

  const TILE := 4096

  /** Offset inside a row of tiles: tiles of 128 bytes by 32 rows; inside a tile, columns of 16 bytes,
      top to bottom. */
  function RowOffset(xb: nat, yy: nat): nat {
    xb / 128 * TILE + xb % 128 / 16 * 512 + yy * 16 + xb % 16
  }

  /** Byte xb of row y, for a pitch in bytes. */
  function YAddress(pitch: nat, xb: nat, y: nat): nat {
    y / 32 * (pitch * 32) + RowOffset(xb, y % 32)
  }

  /** The byte column and the row, inside a row of tiles, of an offset. */
  function RowX(offset: nat): nat { offset / TILE * 128 + offset % TILE / 512 * 16 + offset % TILE % 16 }

  function RowY(offset: nat): nat { offset % TILE % 512 / 16 }

  function Over(a: nat, m: nat): nat
    requires m > 0
  {
    a / m
  }

  function Rest(a: nat, m: nat): nat
    requires m > 0
  {
    a % m
  }

  /** Which byte of which row is at this address. */
  function YPlace(pitch: nat, a: nat): (nat, nat)
    requires pitch > 0
  {
    (RowX(Rest(a, pitch * 32)), Over(a, pitch * 32) * 32 + RowY(Rest(a, pitch * 32)))
  }

  lemma DivIs(n: nat, m: nat, q: nat, r: nat)
    requires n == m * q + r && r < m
    ensures n / m == q && n % m == r
  {
    var k := n / m;
    assert k < q ==> m * (k + 1) <= m * q;
    assert k > q ==> m * k >= m * (q + 1);
  }

  lemma InTile(c: nat, yy: nat, b: nat)
    requires c < 8 && yy < 32 && b < 16
    ensures var i := c * 512 + yy * 16 + b; i < TILE && i / 512 == c && i % 512 / 16 == yy && i % 16 == b
  {
    var i := c * 512 + yy * 16 + b;
    DivIs(i, 512, c, yy * 16 + b);
    DivIs(yy * 16 + b, 16, yy, b);
    DivIs(i, 16, c * 32 + yy, b);
  }

  lemma ByteParts(t: nat, c: nat, b: nat)
    requires c < 8 && b < 16
    ensures var xb := t * 128 + c * 16 + b; xb / 128 == t && xb % 128 / 16 == c && xb % 16 == b
  {
    var xb := t * 128 + c * 16 + b;
    DivIs(xb, 128, t, c * 16 + b);
    DivIs(c * 16 + b, 16, c, b);
    DivIs(xb, 16, t * 8 + c, b);
  }

  /** Inside a row of tiles: the place of a place's offset. */
  lemma PlaceOfOffset(xb: nat, yy: nat)
    requires yy < 32
    ensures RowX(RowOffset(xb, yy)) == xb && RowY(RowOffset(xb, yy)) == yy
  {
    var t, c, b := xb / 128, xb % 128 / 16, xb % 16;
    ByteSplit(xb);
    InTile(c, yy, b);
    DivIs(RowOffset(xb, yy), TILE, t, c * 512 + yy * 16 + b);
  }

  lemma ByteSplit(xb: nat)
    ensures xb == xb / 128 * 128 + xb % 128 / 16 * 16 + xb % 16 && xb % 128 / 16 < 8
  {
    var r := xb % 128;
    assert xb == 128 * (xb / 128) + r && r == 16 * (r / 16) + r % 16;
    DivIs(xb, 16, xb / 128 * 8 + r / 16, r % 16);
  }

  /** The address, in tiles of 4 KiB: rows of tiles, tiles, columns of 16 bytes, rows of the tile, bytes. */
  lemma AddressInTiles(pitch: nat, q: nat, t: nat, c: nat, yy: nat, b: nat)
    requires c < 8 && yy < 32 && b < 16
    ensures YAddress(pitch, 128 * t + 16 * c + b, 32 * q + yy) ==
            q * (pitch * 32) + 4096 * t + 512 * c + 16 * yy + b
  {
    ByteParts(t, c, b);
    DivIs(32 * q + yy, 32, q, yy);
  }

  /** ... and the offset of an offset's place. */
  lemma OffsetOfPlace(offset: nat)
    ensures RowOffset(RowX(offset), RowY(offset)) == offset && RowY(offset) < 32
  {
    var t, i := offset / TILE, offset % TILE;
    var c, yy, b := i / 512, i % 512 / 16, i % 16;
    TileSplit(i);
    ByteParts(t, c, b);
  }

  lemma TileSplit(i: nat)
    requires i < TILE
    ensures i == i / 512 * 512 + i % 512 / 16 * 16 + i % 16 && i / 512 < 8 && i % 512 / 16 < 32
  {
    var r := i % 512;
    assert i == 512 * (i / 512) + r && r == 16 * (r / 16) + r % 16;
    DivIs(i, 16, i / 512 * 32 + r / 16, r % 16);
  }

  lemma OffsetBelow(pitch: nat, xb: nat, yy: nat)
    requires pitch % 128 == 0 && xb < pitch && yy < 32
    ensures RowOffset(xb, yy) < pitch * 32
  {
    ByteSplit(xb);
    InTile(xb % 128 / 16, yy, xb % 16);
    assert xb / 128 + 1 <= pitch / 128 && pitch * 32 == pitch / 128 * TILE;
  }

  lemma XBelow(pitch: nat, offset: nat)
    requires pitch % 128 == 0 && offset < pitch * 32
    ensures RowX(offset) < pitch
  {
    TileSplit(offset % TILE);
    assert pitch * 32 == pitch / 128 * TILE;
    assert offset / TILE < pitch / 128;
    assert RowX(offset) < offset / TILE * 128 + 128;
  }

  lemma Regroup(pitch: nat, k: nat)
    ensures pitch * 32 * k == pitch * (k * 32)
  {
  }

  lemma LastRow(m: nat, q: nat, k: nat, r: nat)
    requires q < k && r < m
    ensures q * m + r < m * k
  {
    assert m * (q + 1) <= m * k;
    assert q * m == m * q;
  }

  /** Every byte place of the padded surface has its own address inside the required bytes. */
  lemma PlaceOfAddress(pitch: nat, xb: nat, y: nat, height: nat)
    requires pitch > 0 && pitch % 128 == 0 && xb < pitch && y < height && height % 32 == 0
    ensures YPlace(pitch, YAddress(pitch, xb, y)) == (xb, y)
    ensures YAddress(pitch, xb, y) < pitch * height
  {
    var row, q, yy := pitch * 32, y / 32, y % 32;
    var offset := RowOffset(xb, yy);
    OffsetBelow(pitch, xb, yy);
    PlaceOfOffset(xb, yy);
    assert q * row == row * q;
    DivIs(YAddress(pitch, xb, y), row, q, offset);
    LastRow(row, q, height / 32, offset);
    Regroup(pitch, height / 32);
    assert height / 32 * 32 == height && q * 32 + yy == y;
  }

  /** And every address inside is the address of its place: the map is one to one and onto. */
  lemma AddressOfPlace(pitch: nat, a: nat, height: nat)
    requires pitch > 0 && pitch % 128 == 0 && height % 32 == 0 && a < pitch * height
    ensures var (xb, y) := YPlace(pitch, a); xb < pitch && y < height && YAddress(pitch, xb, y) == a
  {
    var row := pitch * 32;
    var q, offset := Over(a, row), Rest(a, row);
    Division(a, row);
    RowsBelow(pitch, q, height, a);
    XBelow(pitch, offset);
    OffsetOfPlace(offset);
    RowOf(pitch, q, offset);
  }

  lemma RowOf(pitch: nat, q: nat, offset: nat)
    ensures YAddress(pitch, RowX(offset), q * 32 + RowY(offset)) == q * (pitch * 32) + offset
  {
    OffsetOfPlace(offset);
    DivIs(q * 32 + RowY(offset), 32, q, RowY(offset));
  }

  lemma Division(a: nat, m: nat)
    requires m > 0
    ensures a == Over(a, m) * m + Rest(a, m) && m * Over(a, m) <= a && Rest(a, m) < m
  {
  }

  lemma RowsBelow(pitch: nat, q: nat, height: nat, a: nat)
    requires pitch > 0 && height % 32 == 0 && a < pitch * height && pitch * 32 * q <= a
    ensures q * 32 + 31 < height
  {
    var k := height / 32;
    assert height == k * 32;
    Regroup(pitch, k);
    assert q >= k ==> pitch * 32 * q >= pitch * 32 * k;
  }

  // ---- visible pixels ----

  /** For every pitch a Y-tiled plan is made for, the visible pixels occupy disjoint runs of four bytes
      inside the bytes the plan requires; and from a suitable base, all of them are below 4 GiB. */
  lemma PixelsFit(i: Input, p: Plan, va: nat, x: nat, y: nat, x': nat, y': nat)
    requires Fits(i) && i.tileMode == 3 && p.status == OK && p.pitchBytes == Row(i) && p.requiredBytes == Row(i) * 1088
    requires x < 1920 && y < 1080 && x' < 1920 && y' < 1080
    ensures YAddress(p.pitchBytes, 4 * x, y) + 4 <= p.requiredBytes
    ensures (x, y) != (x', y') ==>
              YAddress(p.pitchBytes, 4 * x, y) + 4 <= YAddress(p.pitchBytes, 4 * x', y') ||
              YAddress(p.pitchBytes, 4 * x', y') + 4 <= YAddress(p.pitchBytes, 4 * x, y)
    ensures BaseSuitable(p, va) ==> va + YAddress(p.pitchBytes, 4 * x, y) + 4 <= UINT32
  {
    var pitch := p.pitchBytes;
    var a, a' := YAddress(pitch, 4 * x, y), YAddress(pitch, 4 * x', y');
    PixelByte(pitch, x, y, 3);
    PlaceOfAddress(pitch, 4 * x + 3, y, 1088);
    if a <= a' < a + 4 { OnePixel(pitch, x, y, x', y', a' - a); }
    if a' <= a < a' + 4 { OnePixel(pitch, x', y', x, y, a - a'); }
  }

  /** An address can be in one pixel's run only. */
  lemma OnePixel(pitch: nat, x: nat, y: nat, x': nat, y': nat, j: nat)
    requires pitch % 128 == 0 && pitch >= 1920 * 4 && x < 1920 && y < 1080 && x' < 1920 && y' < 1080 && j < 4
    requires YAddress(pitch, 4 * x', y') == YAddress(pitch, 4 * x, y) + j
    ensures x == x' && y == y'
  {
    PixelByte(pitch, x, y, j);
    PlaceOfAddress(pitch, 4 * x + j, y, 1088);
    PlaceOfAddress(pitch, 4 * x', y', 1088);
  }

  /** The four bytes of a pixel are consecutive. */
  lemma PixelByte(pitch: nat, x: nat, y: nat, j: nat)
    requires j < 4
    ensures YAddress(pitch, 4 * x + j, y) == YAddress(pitch, 4 * x, y) + j
  {
    var t, c, b := x / 32, x % 32 / 4, x % 4;
    assert x == t * 32 + c * 4 + b by { DivIs(x, 4, x / 32 * 8 + x % 32 / 4, x % 32 % 4); }
    ByteParts(t, c, 4 * b);
    ByteParts(t, c, 4 * b + j);
  }
}
