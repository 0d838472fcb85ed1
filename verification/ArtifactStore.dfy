/** The flat-directory artifact store: identifiers as file names, bounded lookups, publication that never overwrites. */
module ArtifactStore {
  import opened Options
  import opened ByteStrings

  // ----- identifiers as file names -----

  /** A 32-byte content identifier. */
  type ArtifactId = b: Bytes | |b| == 32 witness seq(32, i => 0)

  const HEX: string := "0123456789abcdef"

  function Nibble(c: char): (r: Option<nat>)
    ensures r.Some? ==> r.value < 16 && HEX[r.value] == c
  {
    if '0' <= c <= '9' then
      var v := c as int - '0' as int;
      assert HEX[v] == '0' + v as char;
      Some(v)
    else if 'a' <= c <= 'f' then
      var v := c as int - 'a' as int + 10;
      assert HEX[v] == 'a' + (v - 10) as char;
      Some(v)
    else None
  }

  lemma NibbleOfHex(v: nat)
    requires v < 16
    ensures Nibble(HEX[v]) == Some(v)
  {
    assert v < 10 ==> HEX[v] == '0' + v as char;
    assert v >= 10 ==> HEX[v] == 'a' + (v - 10) as char;
  }

  function DigitsOf(b: Byte): string
  {
    [HEX[b / 16], HEX[b % 16]]
  }

  function ByteOf(high: char, low: char): (r: Option<Byte>)
    ensures r.Some? ==> DigitsOf(r.value) == [high, low]
  {
    hide Nibble;
    match (Nibble(high), Nibble(low))
    case (Some(h), Some(l)) => Some(Joined(h, l))
    case _ => None
  }

  function Joined(h: nat, l: nat): (b: Byte)
    requires h < 16 && l < 16
    ensures b == h * 16 + l && b / 16 == h && b % 16 == l
  {
    h * 16 + l
  }

  lemma ByteOfDigits(b: Byte)
    ensures ByteOf(DigitsOf(b)[0], DigitsOf(b)[1]) == Some(b)
  {
    hide Nibble;
    NibbleOfHex(b / 16);
    NibbleOfHex(b % 16);
    assert (b / 16) * 16 + b % 16 == b;
  }

  /** Two lower-case digits per byte. */
  function HexOf(bytes: Bytes): (s: string)
    ensures |s| == 2 * |bytes|
  {
    if bytes == [] then "" else DigitsOf(bytes[0]) + HexOf(bytes[1..])
  }

  function BytesOf(hex: string): (r: Option<Bytes>)
    requires |hex| % 2 == 0
    ensures r.Some? ==> 2 * |r.value| == |hex| && HexOf(r.value) == hex
  {
    hide ByteOf, DigitsOf;
    if hex == "" then Some([]) else
      match (ByteOf(hex[0], hex[1]), BytesOf(hex[2..]))
      case (Some(b), Some(rest)) =>
        assert ([b] + rest)[1..] == rest;
        assert hex == [hex[0], hex[1]] + hex[2..];
        Some([b] + rest)
      case _ => None
  }

  lemma {:induction false} BytesOfHex(bytes: Bytes)
    ensures BytesOf(HexOf(bytes)) == Some(bytes)
  {
    hide ByteOf;
    if bytes != [] {
      var s := HexOf(bytes);
      ByteOfDigits(bytes[0]);
      assert s[0] == DigitsOf(bytes[0])[0] && s[1] == DigitsOf(bytes[0])[1] && s[2..] == HexOf(bytes[1..]);
      BytesOfHex(bytes[1..]);
      assert bytes == [bytes[0]] + bytes[1..];
    }
  }

  function Filename(id: ArtifactId, extension: string): string
  {
    HexOf(id) + "." + extension
  }

  predicate EndsWith(s: string, suffix: string)
  {
    |s| >= |suffix| && s[|s| - |suffix|..] == suffix
  }

  function FromFilename(name: string, extension: string): Option<ArtifactId>
  {
    if !EndsWith(name, extension) then None else
      var front := name[..|name| - |extension|];
      if !EndsWith(front, ".") then None else
        var hex := front[..|front| - 1];
        if |hex| != 64 then None else BytesOf(hex)
  }

  /** File names and identifiers correspond one to one: a name is recognised exactly when it is some identifier's name. */
  lemma FilenameRoundTrip(id: ArtifactId, extension: string, name: string)
    ensures FromFilename(Filename(id, extension), extension) == Some(id)
    ensures FromFilename(name, extension) == Some(id) <==> name == Filename(id, extension)
  {
    var hex, f := HexOf(id), Filename(id, extension);
    BytesOfHex(id);
    assert f[..|f| - |extension|] == hex + ".";
    assert (hex + ".")[..|hex|] == hex;
    if FromFilename(name, extension) == Some(id) {
      var front := name[..|name| - |extension|];
      assert name == front + extension && front == front[..|front| - 1] + ".";
    }
  }

  lemma FilenameInjective(a: ArtifactId, b: ArtifactId, extension: string)
    requires Filename(a, extension) == Filename(b, extension)
    ensures a == b
  {
    FilenameRoundTrip(a, extension, "");
    FilenameRoundTrip(b, extension, "");
  }

  // ----- the directory -----

  /** A regular file with its modification time, or anything else the directory holds. */
  datatype Item = File(bytes: Bytes, modified: int) | NotFile

  type Directory = map<string, Item>

  datatype Lookup = Hit(bytes: Bytes) | Missing | Oversized

  datatype Record = Record(id: ArtifactId, size: nat, modified: int)

  function LookupIn(files: Directory, id: ArtifactId, extension: string, limit: nat): Lookup
  {
    var name := Filename(id, extension);
    if name !in files || files[name].NotFile? then Missing
    else if |files[name].bytes| > limit then Oversized
    else Hit(files[name].bytes)
  }

  /** The name is an identifier's and the item a regular file. */
  predicate IsEntry(files: Directory, name: string, extension: string)
  {
    name in files && files[name].File? && FromFilename(name, extension).Some?
  }

  function RecordOf(files: Directory, name: string, extension: string): Record
    requires IsEntry(files, name, extension)
  {
    Record(FromFilename(name, extension).value, |files[name].bytes|, files[name].modified)
  }

  class FileStore {
    const extension: string
    const limit: nat
    var files: Directory

    constructor (extension: string, limit: nat, files: Directory)
      ensures this.extension == extension && this.limit == limit && this.files == files
    {
      this.extension, this.limit, this.files := extension, limit, files;
    }

    /** Publish without overwriting: an existing entry of that name stays as it is. */
    method Publish(id: ArtifactId, bytes: Bytes, now: int) returns (ok: bool)
      modifies this
      ensures ok <==> |bytes| <= limit
      ensures var name := Filename(id, extension);
        files == if ok && name !in old(files) then old(files)[name := File(bytes, now)] else old(files)
    {
      if |bytes| > limit {
        return false;
      }
      var name := Filename(id, extension);
      if name !in files {
        files := files[name := File(bytes, now)];
      }
      return true;
    }

    method Remove(id: ArtifactId) returns (removed: bool)
      modifies this
      ensures removed <==> Filename(id, extension) in old(files)
      ensures files == old(files) - {Filename(id, extension)}
    {
      var name := Filename(id, extension);
      removed := name in files;
      files := files - {name};
    }

    /** Every entry once, in directory order, and the number of items passed over. */
    method Scan() returns (records: seq<Record>, ignored: nat)
      ensures |records| + ignored == |files|
      ensures Lists(records, files, files.Keys, extension)
    {
      records, ignored := [], 0;
      var pending := files.Keys;
      ghost var seen: set<string> := {};
      while pending != {}
        invariant seen + pending == files.Keys && seen !! pending
        invariant |records| + ignored == |seen|
        invariant Lists(records, files, seen, extension)
        decreases |pending|
      {
        hide IsEntry, Lists;
        var name :| name in pending;
        if IsEntry(files, name, extension) {
          ListsEntry(records, files, seen, name, extension);
          records := records + [RecordOf(files, name, extension)];
        } else {
          ListsOther(records, files, seen, name, extension);
          ignored := ignored + 1;
        }
        pending := pending - {name};
        seen := seen + {name};
      }
      assert seen == files.Keys;
    }
  }

  /** The records are exactly the entries among the names seen, one each. */
  ghost predicate Lists(records: seq<Record>, files: Directory, seen: set<string>, extension: string)
  {
    && (forall k, l :: 0 <= k < l < |records| ==> records[k].id != records[l].id)
    && forall r :: r in records <==> exists name :: name in seen && IsEntry(files, name, extension) && r == RecordOf(files, name, extension)
  }

  lemma ListsEntry(records: seq<Record>, files: Directory, seen: set<string>, name: string, extension: string)
    requires Lists(records, files, seen, extension) && IsEntry(files, name, extension) && name !in seen
    ensures Lists(records + [RecordOf(files, name, extension)], files, seen + {name}, extension)
  {
    hide IsEntry, RecordOf;
    NewRecord(files, seen, name, extension, records);
    var all, r0 := records + [RecordOf(files, name, extension)], RecordOf(files, name, extension);
    forall r ensures r in all <==>
      exists n :: n in seen + {name} && IsEntry(files, n, extension) && r == RecordOf(files, n, extension)
    {
      if r in all && r != r0 {
        assert r in records;
      }
    }
  }

  lemma ListsOther(records: seq<Record>, files: Directory, seen: set<string>, name: string, extension: string)
    requires Lists(records, files, seen, extension) && !IsEntry(files, name, extension)
    ensures Lists(records, files, seen + {name}, extension)
  {
    hide IsEntry, RecordOf;
  }

  lemma NewRecord(files: Directory, seen: set<string>, name: string, extension: string, records: seq<Record>)
    requires IsEntry(files, name, extension) && name !in seen
    requires forall r :: r in records <==> exists n :: n in seen && IsEntry(files, n, extension) && r == RecordOf(files, n, extension)
    ensures forall k :: 0 <= k < |records| ==> records[k].id != RecordOf(files, name, extension).id
  {
    forall k | 0 <= k < |records| ensures records[k].id != RecordOf(files, name, extension).id {
      assert records[k] in records;
      var n :| n in seen && IsEntry(files, n, extension) && records[k] == RecordOf(files, n, extension);
      FilenameRoundTrip(records[k].id, extension, n);
      FilenameRoundTrip(RecordOf(files, name, extension).id, extension, name);
    }
  }
}
