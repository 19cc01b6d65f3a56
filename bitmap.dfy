// The bitmap writer (src/trace/Image.cpp): the two headers of a top-down
// 24-bit BMP file, the bytes the Windows build writes, the directory it
// creates for the file, and the result each build reports.

module Bitmaps {

  /** An unsigned 8-bit value, `uint8_t`. */
  newtype byte = x: int | 0 <= x < 256

  /** The number of values of a 32-bit word. */
  const WordModulus: int := 0x1_0000_0000

  /** `(DWORD)n`: the unsigned 32-bit value congruent to `n`. */
  function Dword(n: int): (r: int)
    ensures 0 <= r < WordModulus
    ensures 0 <= n < WordModulus ==> r == n
    ensures (r - n) % WordModulus == 0
  {
    n % WordModulus
  }

  /** `(LONG)n`: the signed 32-bit two's-complement value congruent to `n`. */
  function Long(n: int): (r: int)
    ensures -0x8000_0000 <= r < 0x8000_0000
    ensures -0x8000_0000 <= n < 0x8000_0000 ==> r == n
    ensures Dword(r) == Dword(n)
  {
    var d := Dword(n);
    if d < 0x8000_0000 then d else d - WordModulus
  }

  /** `sizeof(BITMAPFILEHEADER)`. */
  const FileHeaderSize: nat := 14

  /** `sizeof(BITMAPINFOHEADER)`. */
  const InfoHeaderSize: nat := 40

  /** `BI_RGB`: uncompressed pixels. */
  const BiRgb: int := 0

  /** The file header: signature, file size, two reserved words and the offset of the pixels. */
  datatype FileHeader = FileHeader(bfType: int, bfSize: int, bfReserved1: int, bfReserved2: int, bfOffBits: int)

  /** The info header of a bitmap without palette. */
  datatype InfoHeader = InfoHeader(biSize: int, biWidth: int, biHeight: int, biPlanes: int, biBitCount: int,
                                   biCompression: int, biSizeImage: int, biXPelsPerMeter: int, biYPelsPerMeter: int,
                                   biClrUsed: int, biClrImportant: int)

  /** Subtracting the pixel count of the file size leaves the header sizes, modulo 2^32. */
  lemma DwordDifference(h: nat, n: nat)
    requires h < WordModulus
    ensures Dword(Dword(h + n) - Dword(n)) == h
  {
    var q1, q2 := (h + n) / WordModulus, n / WordModulus;
    assert Dword(h + n) == h + n - q1 * WordModulus;
    assert Dword(n) == n - q2 * WordModulus;
    var diff := Dword(h + n) - Dword(n);
    assert diff == h + (q2 - q1) * WordModulus;
    assert -WordModulus < diff < WordModulus;
    if diff < 0 {
      assert q2 - q1 == -1;
      assert Dword(diff) == diff + WordModulus;
    } else {
      assert q2 - q1 == 0;
    }
  }

  /**
   * The file header for `pixelCount` bytes of pixels: the "BM" signature,
   * the whole file's size as a DWORD, and the pixels' offset, which is the
   * two header sizes whatever the pixel count, wrap-around included.
   */
  function FileHeaderOf(pixelCount: nat): (h: FileHeader)
    ensures h.bfType % 256 == 'B' as int && h.bfType / 256 == 'M' as int
    ensures h.bfSize == Dword(FileHeaderSize + InfoHeaderSize + pixelCount)
    ensures FileHeaderSize + InfoHeaderSize + pixelCount < WordModulus ==>
              h.bfSize == FileHeaderSize + InfoHeaderSize + pixelCount
    ensures h.bfReserved1 == 0 && h.bfReserved2 == 0
    ensures h.bfOffBits == FileHeaderSize + InfoHeaderSize
  {
    var fileSize := Dword(FileHeaderSize + InfoHeaderSize + pixelCount);
    var dataSize := Dword(pixelCount);
    DwordDifference(FileHeaderSize + InfoHeaderSize, pixelCount);
    FileHeader(0x4d42, fileSize, 0, 0, Dword(fileSize - dataSize))
  }

  /** The info header with the given plane count; every other field as the writer sets it. */
  function InfoHeaderWith(planes: int, width: nat, height: nat, pixelCount: nat): InfoHeader
  {
    InfoHeader(InfoHeaderSize, Long(width), Long(-Long(height)), planes, 24, BiRgb, Dword(pixelCount), 72, 72, 0, 0)
  }

  /** The plane count the bitmap format requires: "must be set to 1". */
  predicate PlanesValid(h: InfoHeader)
  {
    h.biPlanes == 1
  }

  /** The info header as written: three planes. */
  function InfoHeaderAsWritten(width: nat, height: nat, pixelCount: nat): (h: InfoHeader)
    ensures h.biPlanes == 3
    ensures !PlanesValid(h)
  {
    InfoHeaderWith(3, width, height, pixelCount)
  }

  /**
   * The info header with the single plane the format requires: 24 bits per
   * pixel, uncompressed, the pixel byte count as the image size, and a
   * negative height, which makes the rows run top-down.
   */
  function InfoHeaderOf(width: nat, height: nat, pixelCount: nat): (h: InfoHeader)
    ensures PlanesValid(h)
    ensures h.biSize == InfoHeaderSize && h.biBitCount == 24 && h.biCompression == BiRgb
    ensures h.biSizeImage == Dword(pixelCount)
    ensures width < 0x8000_0000 ==> h.biWidth == width
    ensures 0 < height < 0x8000_0000 ==> h.biHeight == -(height as int) && h.biHeight < 0
  {
    InfoHeaderWith(1, width, height, pixelCount)
  }

  /** The three-plane header differs from the one the format requires in the plane count alone. */
  lemma PlanesAreTheOnlyDifference(width: nat, height: nat, pixelCount: nat)
    ensures InfoHeaderAsWritten(width, height, pixelCount) == InfoHeaderOf(width, height, pixelCount).(biPlanes := 3)
    ensures !PlanesValid(InfoHeaderAsWritten(width, height, pixelCount)) && PlanesValid(InfoHeaderOf(width, height, pixelCount))
  {
  }

  /** A 16-bit field, least significant byte first. */
  function Le16(v: int): (r: seq<byte>)
    requires 0 <= v < 0x1_0000
    ensures |r| == 2 && r[0] as int + 256 * r[1] as int == v
  {
    [(v % 256) as byte, (v / 256) as byte]
  }

  /** A 32-bit field, least significant byte first. */
  function Le32(v: int): (r: seq<byte>)
    requires 0 <= v < WordModulus
    ensures |r| == 4 && r[0] as int + 256 * r[1] as int + 0x1_0000 * r[2] as int + 0x100_0000 * r[3] as int == v
  {
    var lo, hi := v % 0x1_0000, v / 0x1_0000;
    Le16(lo) + Le16(hi)
  }

  /** The file header as it lies in the file. */
  function FileHeaderBytes(h: FileHeader): (r: seq<byte>)
    ensures |r| == FileHeaderSize
  {
    Le16(Dword(h.bfType) % 0x1_0000) + Le32(Dword(h.bfSize)) + Le16(Dword(h.bfReserved1) % 0x1_0000)
      + Le16(Dword(h.bfReserved2) % 0x1_0000) + Le32(Dword(h.bfOffBits))
  }

  /** The info header as it lies in the file; signed fields in two's complement. */
  function InfoHeaderBytes(h: InfoHeader): (r: seq<byte>)
    ensures |r| == InfoHeaderSize
  {
    SizeFieldBytes(h) + Le16(Dword(h.biPlanes) % 0x1_0000) + FormatFieldBytes(h)
  }

  /** `biSize`, `biWidth` and `biHeight`, the fields before `biPlanes`. */
  function SizeFieldBytes(h: InfoHeader): (r: seq<byte>)
    ensures |r| == 12
  {
    Le32(Dword(h.biSize)) + Le32(Dword(h.biWidth)) + Le32(Dword(h.biHeight))
  }

  /** The fields after `biPlanes`, from `biBitCount` to `biClrImportant`. */
  function FormatFieldBytes(h: InfoHeader): (r: seq<byte>)
    ensures |r| == 26
  {
    Le16(Dword(h.biBitCount) % 0x1_0000)
      + Le32(Dword(h.biCompression)) + Le32(Dword(h.biSizeImage)) + Le32(Dword(h.biXPelsPerMeter))
      + Le32(Dword(h.biYPelsPerMeter)) + Le32(Dword(h.biClrUsed)) + Le32(Dword(h.biClrImportant))
  }

  /**
   * What the three `WriteFile` calls put in the file: the file header, the
   * info header, the pixels; with the single plane the format requires.
   */
  function Contents(width: nat, height: nat, pixels: seq<byte>): seq<byte>
  {
    FileHeaderBytes(FileHeaderOf(|pixels|)) + InfoHeaderBytes(InfoHeaderOf(width, height, |pixels|)) + pixels
  }

  /** The file as written, with the three-plane info header. */
  function ContentsAsWritten(width: nat, height: nat, pixels: seq<byte>): seq<byte>
  {
    FileHeaderBytes(FileHeaderOf(|pixels|)) + InfoHeaderBytes(InfoHeaderAsWritten(width, height, |pixels|)) + pixels
  }

  /**
   * The file as written and the corrected one have the same length and
   * differ only in the low byte of `biPlanes`, 26 bytes into the file.
   */
  lemma ContentsDifferInPlanes(width: nat, height: nat, pixels: seq<byte>)
    ensures var w, c := ContentsAsWritten(width, height, pixels), Contents(width, height, pixels);
            |w| == |c| && w[26] == 3 && c[26] == 1
            && forall i :: 0 <= i < |w| && i != 26 ==> w[i] == c[i]
  {
    var h := InfoHeaderOf(width, height, |pixels|);
    assert InfoHeaderAsWritten(width, height, |pixels|) == h.(biPlanes := 3) by {
      PlanesAreTheOnlyDifference(width, height, |pixels|);
    }
    assert h == h.(biPlanes := 1);
    PlanesBytes(h, 3);
    PlanesBytes(h, 1);
    SpliceDiffers(FileHeaderBytes(FileHeaderOf(|pixels|)), SizeFieldBytes(h), 3, 1, FormatFieldBytes(h), pixels);
  }

  /** The info header bytes with `biPlanes` set to a one-byte value. */
  lemma PlanesBytes(h: InfoHeader, p: byte)
    ensures InfoHeaderBytes(h.(biPlanes := p as int)) == SizeFieldBytes(h) + [p, 0] + FormatFieldBytes(h)
  {
    assert Le16(Dword(p as int) % 0x1_0000) == [p, 0];
  }

  /** Two files that differ only in the low byte of one spliced-in 16-bit field. */
  lemma SpliceDiffers(head: seq<byte>, pre: seq<byte>, x: byte, y: byte, post: seq<byte>, tail: seq<byte>)
    ensures var w, c := head + (pre + [x, 0] + post) + tail, head + (pre + [y, 0] + post) + tail;
            |w| == |c| && w[|head| + |pre|] == x && c[|head| + |pre|] == y
            && forall i :: 0 <= i < |w| && i != |head| + |pre| ==> w[i] == c[i]
  {
  }

  /**
   * The file is the two headers followed by the pixels: the pixels start at
   * `bfOffBits`, and `bfSize` is the length of the file when it fits a DWORD.
   */
  lemma ContentsLayout(width: nat, height: nat, pixels: seq<byte>)
    ensures var c := Contents(width, height, pixels);
            var h := FileHeaderOf(|pixels|);
            |c| == FileHeaderSize + InfoHeaderSize + |pixels|
            && h.bfOffBits <= |c| && c[h.bfOffBits..] == pixels
            && (|c| < WordModulus ==> h.bfSize == |c|)
  {
  }

  /** Position of the last `ch` in `s`, or -1 (a null pointer) when there is none: `strrchr`. */
  function LastIndex(s: string, ch: char): (r: int)
    ensures -1 <= r < |s|
    ensures r >= 0 ==> s[r] == ch
    ensures forall i :: r < i < |s| ==> s[i] != ch
  {
    if |s| == 0 then -1
    else if s[|s| - 1] == ch then |s| - 1
    else LastIndex(s[..|s| - 1], ch)
  }

  /** A path separator of either kind. */
  predicate IsSeparator(ch: char)
  {
    ch == '/' || ch == '\\'
  }

  /** The later of the last '/' and the last '\\'; -1 when the name has neither. */
  function LastSeparator(filename: string): (r: int)
    ensures -1 <= r < |filename|
    ensures r >= 0 ==> IsSeparator(filename[r])
    ensures forall i :: r < i < |filename| ==> !IsSeparator(filename[i])
  {
    var fslash, bslash := LastIndex(filename, '/'), LastIndex(filename, '\\');
    if fslash < bslash then bslash else fslash
  }

  /**
   * The directory the writer creates: the name up to its last separator,
   * when it has one, and none otherwise.
   */
  function DirectoriesCreated(filename: string): (r: seq<string>)
    ensures |r| <= 1
    ensures |r| == 0 <==> forall i :: 0 <= i < |filename| ==> !IsSeparator(filename[i])
    ensures |r| == 1 ==> |r[0]| < |filename| && r[0] == filename[..|r[0]|] && IsSeparator(filename[|r[0]|])
                         && forall i :: |r[0]| < i < |filename| ==> !IsSeparator(filename[i])
  {
    var slash := LastSeparator(filename);
    if slash >= 0 then [filename[..slash]] else []
  }

  /**
   * The directory name as the writer builds it: the characters up to and
   * including the separator copied into a buffer, the separator then
   * overwritten by the terminating NUL.
   */
  method DirectoryBuffer(filename: string, slash: nat) returns (buffer: array<char>)
    requires slash < |filename|
    ensures fresh(buffer)
    ensures buffer[..] == filename[..slash] + ['\0']
  {
    buffer := new char[slash + 1](i requires 0 <= i <= slash => filename[i]);
    buffer[slash] := '\0';
  }

  /** A file the writer produces: its name and its bytes. */
  datatype BitmapFile = BitmapFile(name: string, bytes: seq<byte>)

  /** What a call to the writer reports and leaves behind. */
  datatype Outcome = Outcome(ok: bool, directories: seq<string>, files: seq<BitmapFile>)

  /**
   * `WriteBitmapBGR`. The Windows build creates the directory, writes the
   * headers and the pixels and reports success whatever the file calls
   * return; any other build does nothing and reports failure.
   */
  function WriteBitmapBGR(windows: bool, filename: string, width: nat, height: nat, pixels: seq<byte>): (r: Outcome)
    ensures r.ok <==> windows
    ensures !windows ==> r.directories == [] && r.files == []
    ensures windows ==> r.directories == DirectoriesCreated(filename)
                        && r.files == [BitmapFile(filename, Contents(width, height, pixels))]
  {
    if windows then Outcome(true, DirectoriesCreated(filename), [BitmapFile(filename, Contents(width, height, pixels))])
    else Outcome(false, [], [])
  }
}
