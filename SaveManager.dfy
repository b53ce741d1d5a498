/** The versioned save manager. A save file is the format version as a
    native `int` (four bytes, little-endian two's complement) followed by the
    raw bytes of the saved object. The manager keeps two buffers of the
    object's size: `origin`, the defaults it was built from, and `data`, the
    current values. Files live in a `FileSystem` from path to bytes. */
module SaveManager {
  import opened Common

  /** The return codes of `Load` and `Write`. */
  const Success: int := 0
  const LoadFailure: int := 1
  const WriteFailure: int := 2
  const FileNotFound: int := 3
  const IncompatibleVersion: int := 4

  const IntBytes: nat := 4

  /** The four bytes `file.write(&version, sizeof(int))` emits: the value
      modulo 2^32 (two's complement), least significant byte first. */
  function EncodeInt(v: Int32): (b: seq<Octet>)
    ensures |b| == IntBytes
  {
    var u := v % Two32;
    [u % 0x100, u / 0x100 % 0x100, u / 0x1_0000 % 0x100, u / 0x100_0000]
  }

  /** The `int` that `file.read(&fileVersion, sizeof(int))` reads back. */
  function DecodeInt(b: seq<Octet>): Int32
    requires |b| == IntBytes
  {
    var u: int := b[0] as int + 0x100 * (b[1] as int + 0x100 * (b[2] as int + 0x100 * b[3] as int));
    if u >= 0x8000_0000 then u - Two32 else u
  }

  lemma SplitByte(u: int, lo: int, hi: int)
    requires 0 <= lo < 0x100 && u == lo + 0x100 * hi
    ensures u % 0x100 == lo && u / 0x100 == hi
  {
  }

  /** Decoding undoes encoding, and every four bytes are the encoding of the
      `int` they decode to. */
  lemma IntRoundTrip(v: Int32, b: seq<Octet>)
    requires |b| == IntBytes
    ensures DecodeInt(EncodeInt(v)) == v
    ensures EncodeInt(DecodeInt(b)) == b
  {
    var u := v % Two32;
    var h1 := u / 0x100;
    var h2 := h1 / 0x100;
    SplitByte(u, u % 0x100, h1);
    SplitByte(h1, h1 % 0x100, h2);
    SplitByte(h2, h2 % 0x100, h2 / 0x100);
    assert u / 0x1_0000 == h2;
    assert u / 0x100_0000 == h2 / 0x100;

    var g2: int := b[2] as int + 0x100 * b[3] as int;
    var g1: int := b[1] as int + 0x100 * g2;
    var w: int := b[0] as int + 0x100 * g1;
    assert DecodeInt(b) % Two32 == w;
    SplitByte(w, b[0], g1);
    SplitByte(g1, b[1], g2);
    SplitByte(g2, b[2], b[3]);
    assert w / 0x1_0000 == g2;
    assert w / 0x100_0000 == b[3];
  }

  /** What reading a save file finds: a different version (with the bytes
      after it), a payload shorter than the object (with what was there), or
      the object's bytes. */
  datatype Parsed =
    | VersionMismatch(fileVersion: int, rest: seq<Octet>)
    | ShortPayload(partial: seq<Octet>)
    | Payload(bytes: seq<Octet>)

  /** How `Load` reads a file of `size`-byte objects. A file shorter than an
      `int` leaves `fileVersion` with an indeterminate value, given here as
      `indeterminate`; the stream has then failed and reads nothing more.
      Bytes after the object are ignored. */
  function ParseSave(file: seq<Octet>, version: Int32, size: nat, indeterminate: Int32): (r: Parsed)
    ensures r.ShortPayload? ==> |r.partial| <= size
    ensures r.Payload? ==> |r.bytes| == size
  {
    if |file| < IntBytes then
      if indeterminate != version then VersionMismatch(indeterminate, []) else ShortPayload([])
    else if DecodeInt(file[..IntBytes]) != version then
      VersionMismatch(DecodeInt(file[..IntBytes]), file[IntBytes..])
    else if |file| - IntBytes < size then ShortPayload(file[IntBytes..])
    else Payload(file[IntBytes..IntBytes + size])
  }

  /** Round trip of the format: a file holding a version and an object of
      the expected size reads back as that object, whatever the manager's
      indeterminate fallback. */
  lemma SaveFileRoundTrip(version: Int32, payload: seq<Octet>, indeterminate: Int32)
    ensures ParseSave(EncodeInt(version) + payload, version, |payload|, indeterminate) == Payload(payload)
  {
    var file := EncodeInt(version) + payload;
    assert file[..IntBytes] == EncodeInt(version);
    IntRoundTrip(version, file[..IntBytes]);
    assert file[IntBytes..IntBytes + |payload|] == payload;
  }

  /** A file written for another version is always reported as such, with
      the version it holds. */
  lemma OtherVersionDetected(written: Int32, expected: Int32, payload: seq<Octet>, size: nat, indeterminate: Int32)
    requires written != expected
    ensures ParseSave(EncodeInt(written) + payload, expected, size, indeterminate)
         == VersionMismatch(written, payload)
  {
    var file := EncodeInt(written) + payload;
    assert file[..IntBytes] == EncodeInt(written);
    assert file[IntBytes..] == payload;
    IntRoundTrip(written, file[..IntBytes]);
  }

  /** The files the manager reads and writes, by path. `ofstream` cannot
      open the paths in `readOnly`. */
  class FileSystem {
    var files: map<string, seq<Octet>>
    const readOnly: set<string>

    constructor (files: map<string, seq<Octet>>, readOnly: set<string>)
      ensures this.files == files && this.readOnly == readOnly
    {
      this.files := files;
      this.readOnly := readOnly;
    }
  }

  type IncompatibleVersionCallback = (seq<Octet>, int) -> bool

  class SaveManager {
    var version: Int32
    var directory: string
    /** The defaults the manager was built from. */
    const origin: array<Octet>
    /** The current save data. */
    var data: array<Octet>
    var onIncompatibleVersion: Option<IncompatibleVersionCallback>
    /** The object the manager was constructed with. */
    ghost const defaults: seq<Octet>

    /** Both buffers hold one object of the saved type. */
    ghost predicate Sized()
      reads this
    {
      origin.Length == data.Length == |defaults|
    }

    /** The defaults are intact and the current data is a separate buffer. */
    ghost predicate Pristine()
      reads this, origin
    {
      Sized() && data != origin && origin[..] == defaults
    }

    /** `SaveManager(origin, version, directory)`: both buffers receive a copy
        of the object. */
    constructor (initial: seq<Octet>, version: Int32, directory: string)
      ensures Pristine() && defaults == initial
      ensures data[..] == initial && fresh(origin) && fresh(data)
      ensures this.version == version && this.directory == directory && onIncompatibleVersion.None?
    {
      this.version := version;
      this.directory := directory;
      defaults := initial;
      origin := new Octet[|initial|](i requires 0 <= i < |initial| => initial[i]);
      data := new Octet[|initial|](i requires 0 <= i < |initial| => initial[i]);
      onIncompatibleVersion := None;
    }

    method SetDirectory(directory: string)
      modifies this
      ensures this.directory == directory && version == old(version) && data == old(data)
      ensures onIncompatibleVersion == old(onIncompatibleVersion)
    {
      this.directory := directory;
    }

    method SetOnIncompatibleVersion(callback: IncompatibleVersionCallback)
      modifies this
      ensures onIncompatibleVersion == Some(callback)
      ensures directory == old(directory) && version == old(version) && data == old(data)
    {
      onIncompatibleVersion := Some(callback);
    }

    /** `Get<T>()`: the current data. */
    function Get(): (r: seq<Octet>)
      reads this, data
      ensures Sized() ==> |r| == |defaults|
    {
      data[..]
    }

    /** The code a version mismatch gives: success when a callback is set and
        accepts the file, else `INCOMPATIBLE_VERSION`. */
    function MismatchCode(fileVersion: int, rest: seq<Octet>): (r: int)
      reads this
      ensures r == Success || r == IncompatibleVersion
      ensures r == Success <==> onIncompatibleVersion.Some? && onIncompatibleVersion.value(rest, fileVersion)
    {
      if onIncompatibleVersion.Some? && onIncompatibleVersion.value(rest, fileVersion) then Success
      else IncompatibleVersion
    }

    /** `Load<T>(fileName)` as written. A missing file and a version mismatch
        leave the data alone. A short payload is read as far as it goes into
        the current buffer, and then the current data pointer is made to
        point at the defaults buffer itself. */
    method Load(fs: FileSystem, fileName: string, indeterminate: Int32) returns (r: int)
      requires Sized()
      modifies this, data, origin
      ensures Sized() && version == old(version) && directory == old(directory)
      ensures onIncompatibleVersion == old(onIncompatibleVersion)
      ensures directory + fileName !in fs.files ==>
        r == FileNotFound && data == old(data) && data[..] == old(data[..]) && origin[..] == old(origin[..])
      ensures directory + fileName in fs.files ==>
        match ParseSave(fs.files[directory + fileName], version, data.Length, indeterminate)
        case VersionMismatch(fv, rest) =>
          r == MismatchCode(fv, rest) && data == old(data) && data[..] == old(data[..])
          && origin[..] == old(origin[..])
        case ShortPayload(p) =>
          r == LoadFailure && data == origin
          && old(data)[..] == p + old(data[..])[|p|..]
          && (old(data) != origin ==> origin[..] == old(origin[..]))
        case Payload(b) =>
          r == Success && data == old(data) && data[..] == b
          && (old(data) != origin ==> origin[..] == old(origin[..]))
    {
      var path := directory + fileName;
      if path !in fs.files {
        return FileNotFound;
      }
      match ParseSave(fs.files[path], version, data.Length, indeterminate)
      case VersionMismatch(fv, rest) =>
        r := MismatchCode(fv, rest);
      case ShortPayload(p) =>
        forall i | 0 <= i < |p| {
          data[i] := p[i];
        }
        assert data[..] == p + old(data[..])[|p|..];
        data := origin;
        r := LoadFailure;
      case Payload(b) =>
        forall i | 0 <= i < |b| {
          data[i] := b[i];
        }
        r := Success;
    }

    /** Loading with the defaults restored by copy on a short payload: the
        current buffer stays separate and the defaults are never written. */
    method LoadRestoring(fs: FileSystem, fileName: string, indeterminate: Int32) returns (r: int)
      requires Pristine()
      modifies data
      ensures Pristine() && data == old(data)
      ensures directory + fileName !in fs.files ==> r == FileNotFound && data[..] == old(data[..])
      ensures directory + fileName in fs.files ==>
        match ParseSave(fs.files[directory + fileName], version, data.Length, indeterminate)
        case VersionMismatch(fv, rest) => r == MismatchCode(fv, rest) && data[..] == old(data[..])
        case ShortPayload(_) => r == LoadFailure && data[..] == defaults
        case Payload(b) => r == Success && data[..] == b
    {
      var path := directory + fileName;
      if path !in fs.files {
        return FileNotFound;
      }
      match ParseSave(fs.files[path], version, data.Length, indeterminate)
      case VersionMismatch(fv, rest) =>
        r := MismatchCode(fv, rest);
      case ShortPayload(p) =>
        forall i | 0 <= i < |p| {
          data[i] := p[i];
        }
        forall i | 0 <= i < data.Length {
          data[i] := origin[i];
        }
        r := LoadFailure;
      case Payload(b) =>
        forall i | 0 <= i < |b| {
          data[i] := b[i];
        }
        r := Success;
    }

    /** `Write<T>(fileName)`: an unopenable path gives `FILE_NOT_FOUND`;
        otherwise the file is truncated and receives the version and the
        data. `deviceFails` stands for the stream failing while writing,
        which leaves some prefix of those bytes and gives `WRITE_FAILURE`. */
    method Write(fs: FileSystem, fileName: string, deviceFails: bool) returns (r: int)
      modifies fs
      ensures directory + fileName in fs.readOnly ==> r == FileNotFound && fs.files == old(fs.files)
      ensures directory + fileName !in fs.readOnly && !deviceFails ==>
        r == Success && fs.files == old(fs.files)[directory + fileName := EncodeInt(version) + data[..]]
      ensures directory + fileName !in fs.readOnly && deviceFails ==>
        r == WriteFailure && directory + fileName in fs.files
        && fs.files[directory + fileName] <= EncodeInt(version) + data[..]
        && fs.files == old(fs.files)[directory + fileName := fs.files[directory + fileName]]
    {
      var path := directory + fileName;
      if path in fs.readOnly {
        return FileNotFound;
      }
      var bytes := EncodeInt(version) + data[..];
      if deviceFails {
        var k :| 0 <= k <= |bytes|;
        fs.files := fs.files[path := bytes[..k]];
        return WriteFailure;
      }
      fs.files := fs.files[path := bytes];
      r := Success;
    }
  }

  /** Writing the data and loading it back under the same name succeeds and
      leaves the data as it was. */
  method WriteThenLoad(s: SaveManager, fs: FileSystem, fileName: string, indeterminate: Int32)
    returns (written: int, loaded: int)
    requires s.Sized() && s.directory + fileName !in fs.readOnly
    modifies s, s.data, s.origin, fs
    ensures written == Success && loaded == Success
    ensures s.data == old(s.data) && s.data[..] == old(s.data[..])
  {
    written := s.Write(fs, fileName, false);
    SaveFileRoundTrip(s.version, s.data[..], indeterminate);
    loaded := s.Load(fs, fileName, indeterminate);
  }

  /** Two loads of a file whose payload is one byte short: the first points
      the data at the defaults buffer, so the second writes the partial
      payload into the defaults themselves, and the data no longer equals
      the defaults after a failed load. */
  method ShortLoadsCorruptDefaults(s: SaveManager, fs: FileSystem, fileName: string)
    requires s.Pristine() && s.defaults == [0, 0]
    requires fs.files == map[s.directory + fileName := EncodeInt(s.version) + [7]]
    modifies s, s.data, s.origin
    ensures s.data == s.origin && s.data[..] == [7, 0] && s.data[..] != s.defaults
  {
    var r1 := s.Load(fs, fileName, 0);
    assert (EncodeInt(s.version) + [7])[..IntBytes] == EncodeInt(s.version);
    IntRoundTrip(s.version, EncodeInt(s.version));
    assert (EncodeInt(s.version) + [7])[IntBytes..] == [7];
    var r2 := s.Load(fs, fileName, 0);
  }

  /** The same two loads with the defaults restored by copy leave the data
      equal to the defaults. */
  method ShortLoadsRestoreDefaults(s: SaveManager, fs: FileSystem, fileName: string)
    requires s.Pristine() && s.defaults == [0, 0]
    requires fs.files == map[s.directory + fileName := EncodeInt(s.version) + [7]]
    modifies s.data
    ensures s.Pristine() && s.data[..] == s.defaults
  {
    assert (EncodeInt(s.version) + [7])[..IntBytes] == EncodeInt(s.version);
    IntRoundTrip(s.version, EncodeInt(s.version));
    assert (EncodeInt(s.version) + [7])[IntBytes..] == [7];
    var r1 := s.LoadRestoring(fs, fileName, 0);
    var r2 := s.LoadRestoring(fs, fileName, 0);
  }
}
