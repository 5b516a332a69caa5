/** Uploaded files: reading the first bytes of a stream, and deciding the type of an
    image from them. */
module Mime {
  import opened Common

  type Byte = b: int | 0 <= b < 256

  const MAX_FILE_SIZE := 5 * 1024 * 1024
  const MIN_FILE_SIZE := 12
  const HEADER_SIZE := 12

  const JPEG_MAGIC: seq<Byte> := [0xff, 0xd8, 0xff]
  const PNG_MAGIC: seq<Byte> := [0x89, 0x50, 0x4e, 0x47, 0x0d, 0x0a, 0x1a, 0x0a]
  const GIF87_MAGIC: seq<Byte> := [0x47, 0x49, 0x46, 0x38, 0x37, 0x61]
  const GIF89_MAGIC: seq<Byte> := [0x47, 0x49, 0x46, 0x38, 0x39, 0x61]
  const RIFF_MAGIC: seq<Byte> := [0x52, 0x49, 0x46, 0x46]
  const WEBP_MAGIC: seq<Byte> := [0x57, 0x45, 0x42, 0x50]

  function DetectMime(h: seq<Byte>): Result<string> {
    if |h| < 4 then Err(UnsupportedMime)
    else if h[..3] == JPEG_MAGIC then Ok("image/jpeg")
    else if |h| >= 8 && h[..8] == PNG_MAGIC then Ok("image/png")
    else if |h| >= 6 && (h[..6] == GIF87_MAGIC || h[..6] == GIF89_MAGIC) then Ok("image/gif")
    else if |h| >= 12 && h[..4] == RIFF_MAGIC && h[8..12] == WEBP_MAGIC then Ok("image/webp")
    else Err(UnsupportedMime)
  }

  /** The four accepted types, each by its own rule and without the others. */
  datatype Format = Jpeg | Png | Gif | Webp {
    predicate Matches(h: seq<Byte>) {
      match this
      case Jpeg => |h| >= 4 && JPEG_MAGIC <= h
      case Png => PNG_MAGIC <= h
      case Gif => GIF87_MAGIC <= h || GIF89_MAGIC <= h
      case Webp => |h| >= 12 && RIFF_MAGIC <= h && h[8..12] == WEBP_MAGIC
    }

    function Name(): string {
      match this
      case Jpeg => "image/jpeg"
      case Png => "image/png"
      case Gif => "image/gif"
      case Webp => "image/webp"
    }
  }

  /** The first rule of `order` that matches decides. */
  function DetectInOrder(h: seq<Byte>, order: seq<Format>): Result<string> {
    if order == [] then Err(UnsupportedMime)
    else if order[0].Matches(h) then Ok(order[0].Name())
    else DetectInOrder(h, order[1..])
  }

  /** No header matches two rules, because their first bytes differ. */
  lemma FormatsExclusive(h: seq<Byte>, a: Format, b: Format)
    requires a.Matches(h) && b.Matches(h)
    ensures a == b
  {
    assert h[0] == match a case Jpeg => 0xff case Png => 0x89 case Gif => 0x47 case Webp => 0x52;
    assert h[0] == match b case Jpeg => 0xff case Png => 0x89 case Gif => 0x47 case Webp => 0x52;
  }

  lemma NamesDistinct(a: Format, b: Format)
    requires a.Name() == b.Name()
    ensures a == b
  {
  }

  lemma DetectMimeByFormat(h: seq<Byte>)
    ensures DetectMime(h) ==
            if Jpeg.Matches(h) then Ok(Jpeg.Name())
            else if Png.Matches(h) then Ok(Png.Name())
            else if Gif.Matches(h) then Ok(Gif.Name())
            else if Webp.Matches(h) then Ok(Webp.Name())
            else Err(UnsupportedMime)
  {
  }

  /** The verdict is a type exactly when that type's own rule matches. */
  lemma DetectsFormat(h: seq<Byte>, f: Format)
    ensures f.Matches(h) <==> DetectMime(h) == Ok(f.Name())
  {
    DetectMimeByFormat(h);
    forall a: Format | a.Matches(h) && f.Matches(h) ensures a == f {
      FormatsExclusive(h, a, f);
    }
    forall a: Format | a.Name() == f.Name() ensures a == f {
      NamesDistinct(a, f);
    }
  }

  lemma DetectedIsFormat(h: seq<Byte>)
    ensures DetectMime(h).Ok? ==> exists f: Format :: f.Matches(h)
    ensures DetectMime(h).Err? ==> DetectMime(h) == Err(UnsupportedMime) && forall f: Format :: !f.Matches(h)
  {
    DetectMimeByFormat(h);
    if DetectMime(h).Ok? {
      var f := if Jpeg.Matches(h) then Jpeg else if Png.Matches(h) then Png else if Gif.Matches(h) then Gif else Webp;
      assert f.Matches(h);
    }
  }

  /** The verdict does not depend on the order in which the source tests the types. */
  lemma {:induction false} DetectOrderIrrelevant(h: seq<Byte>, order: seq<Format>)
    requires forall f: Format :: f.Matches(h) ==> f in order
    ensures DetectInOrder(h, order) == DetectMime(h)
  {
    if order == [] {
      DetectedIsFormat(h);
    } else if order[0].Matches(h) {
      DetectsFormat(h, order[0]);
    } else {
      forall f: Format | f.Matches(h) ensures f in order[1..] {
        assert f in order && f != order[0];
      }
      DetectOrderIrrelevant(h, order[1..]);
    }
  }

  /** Bytes after the twelfth do not change the verdict. */
  lemma DetectUsesHeader(h: seq<Byte>)
    requires |h| >= HEADER_SIZE
    ensures DetectMime(h[..HEADER_SIZE]) == DetectMime(h)
  {
  }

  /** A byte stream and, if it breaks, the position at which reading fails. */
  datatype File = File(data: seq<Byte>, failAt: Option<nat>) {
    predicate FailsBefore(n: nat) {
      failAt.Some? && failAt.value <= |data| && failAt.value < n
    }
  }

  /** The header a fresh stream gives: its first twelve bytes, or all it has. */
  function HeaderOf(f: File): Result<seq<Byte>> {
    if f.FailsBefore(HEADER_SIZE) then Err(InputOutput)
    else Ok(if |f.data| < HEADER_SIZE then f.data else f.data[..HEADER_SIZE])
  }

  datatype ReadStatus = More | End | Broken

  method CopyInto(buf: array<Byte>, from: nat, src: seq<Byte>)
    requires from + |src| <= buf.Length
    modifies buf
    ensures buf[..] == old(buf[..from]) + src + old(buf[from + |src|..])
  {
    for i := 0 to |src|
      invariant forall k :: 0 <= k < buf.Length ==>
                              buf[k] == if from <= k < from + i then src[k - from] else old(buf[k])
    {
      buf[from + i] := src[i];
    }
  }

  class Reader {
    const file: File
    var pos: nat

    ghost predicate Valid()
      reads this
    {
      pos <= |file.data| && (file.failAt.Some? && file.failAt.value <= |file.data| ==> pos <= file.failAt.value)
    }

    constructor (file: File)
      ensures Valid() && this.file == file && pos == 0
    {
      this.file := file;
      pos := 0;
    }

    /** Some bytes, at least one unless the stream is at its end or breaks. */
    method Read(buf: array<Byte>, from: nat) returns (n: nat, status: ReadStatus)
      requires Valid() && from < buf.Length
      modifies this, buf
      ensures Valid() && pos == old(pos) + n && from + n <= buf.Length
      ensures buf[..] == old(buf[..from]) + file.data[old(pos)..pos] + old(buf[from + n..])
      ensures status == More <==> n > 0
      ensures status == Broken <==> file.failAt == Some(old(pos))
      ensures status == End ==> pos == |file.data|
    {
      n := 0;
      if file.failAt == Some(pos) {
        status := Broken;
      } else if pos == |file.data| {
        status := End;
      } else {
        status := More;
        var most := if |file.data| - pos < buf.Length - from then |file.data| - pos else buf.Length - from;
        if file.failAt.Some? && pos < file.failAt.value < pos + most {
          most := file.failAt.value - pos;
        }
        var wanted: nat := *;
        n := if 0 < wanted < most then wanted else most;
        CopyInto(buf, from, file.data[pos..pos + n]);
        pos := pos + n;
      }
    }
  }

  /** Fills a twelve byte buffer from a fresh stream, in as many reads as it takes. */
  method ReadHeader(r: Reader) returns (header: Result<seq<Byte>>)
    requires r.Valid() && r.pos == 0
    modifies r
    ensures r.Valid()
    ensures header == HeaderOf(r.file)
    ensures header.Ok? ==> header.value == r.file.data[..r.pos]
  {
    var buf := new Byte[HEADER_SIZE](_ => 0);
    var n, status := 0, More;
    while n < HEADER_SIZE && status == More
      invariant fresh(buf) && buf.Length == HEADER_SIZE
      invariant r.Valid() && r.pos == n <= HEADER_SIZE
      invariant buf[..n] == r.file.data[..n]
      invariant status == Broken ==> r.file.failAt == Some(n) && n < HEADER_SIZE
      invariant status == End ==> n == |r.file.data| && r.file.failAt != Some(n)
      decreases HEADER_SIZE - n, if status == More then 1 else 0
    {
      var m: nat;
      m, status := r.Read(buf, n);
      n := n + m;
    }
    if status == Broken {
      return Err(InputOutput);
    }
    assert status == End ==> r.file.data[..n] == r.file.data;
    header := Ok(buf[..n]);
  }
}
