/** The persistent executable cache: identifiers, validated loads, and oldest-first trimming of compatible entries. */
module DiskCaches {
  import opened Options
  import opened ByteStrings
  import opened ArtifactStore

  datatype Entry = Entry(version: nat, namespace: Bytes, key: Bytes, checksum: Bytes, artifact: Bytes, flags: Option<Bytes>)

  /** The envelope codec and the content hash, whose internals are not modelled. */
  datatype Codec = Codec(encode: Entry -> Bytes, decode: Bytes -> Option<Entry>, hash: Bytes -> ArtifactId)

  ghost predicate RoundTrips(c: Codec)
  {
    forall e: Entry :: c.decode(c.encode(e)) == Some(e)
  }

  /** What entries must agree on to be compatible. */
  datatype Realm = Realm(namespace: Bytes, flags: Option<Bytes>)

  // ----- identifiers -----

  function DiskTag(): Bytes
  {
    Ascii("rxla-core-disk-v2-selected-device-options-v2")
  }

  /** Unset flags, and set flags with their length. */
  function FlagField(flags: Option<Bytes>): Bytes
  {
    match flags
    case None => [0]
    case Some(f) => [1] + LengthField(f) + f
  }

  /** The bytes hashed into an identifier. */
  function Preimage(realm: Realm, key: Bytes): Bytes
  {
    DiskTag() + LengthField(realm.namespace) + realm.namespace + FlagField(realm.flags) + key
  }

  predicate RealmOk(realm: Realm)
  {
    Addressable(realm.namespace) && (realm.flags.Some? ==> Addressable(realm.flags.value))
  }

  lemma FlagFieldInjective(f: Option<Bytes>, g: Option<Bytes>, x: Bytes, y: Bytes)
    requires (f.Some? ==> Addressable(f.value)) && (g.Some? ==> Addressable(g.value))
    requires FlagField(f) + x == FlagField(g) + y
    ensures f == g && x == y
  {
    hide LengthField, Addressable;
    FlagFieldTag(f, x);
    FlagFieldTag(g, y);
    if f == None {
      PrefixCancel([0], x, y);
    } else {
      SetFlags(f.value, x);
      SetFlags(g.value, y);
      PrefixCancel([1], LengthField(f.value) + f.value + x, LengthField(g.value) + g.value + y);
      FramedInjective(f.value, g.value, x, y);
    }
  }

  lemma FlagFieldTag(f: Option<Bytes>, x: Bytes)
    ensures FlagField(f) != [] && (FlagField(f) + x)[0] == (if f == None then 0 else 1)
  {
    hide LengthField;
  }

  lemma SetFlags(f: Bytes, x: Bytes)
    ensures FlagField(Some(f)) + x == [1] + (LengthField(f) + f + x)
  {
    hide LengthField;
  }

  /** Namespace, flags (unset, empty or a value) and key can all be read back from the hashed bytes. */
  lemma PreimageInjective(r: Realm, k: Bytes, s: Realm, l: Bytes)
    requires RealmOk(r) && RealmOk(s) && Preimage(r, k) == Preimage(s, l)
    ensures r == s && k == l
  {
    hide LengthField, Addressable, DiskTag, FlagField;
    var x, y := FlagField(r.flags) + k, FlagField(s.flags) + l;
    assert Preimage(r, k) == DiskTag() + (LengthField(r.namespace) + r.namespace + x);
    assert Preimage(s, l) == DiskTag() + (LengthField(s.namespace) + s.namespace + y);
    PrefixCancel(DiskTag(), LengthField(r.namespace) + r.namespace + x, LengthField(s.namespace) + s.namespace + y);
    FramedInjective(r.namespace, s.namespace, x, y);
    FlagFieldInjective(r.flags, s.flags, k, l);
  }

  function IdOf(c: Codec, realm: Realm, key: Bytes): ArtifactId
  {
    c.hash(Preimage(realm, key))
  }

  // ----- validation -----

  /** An intact envelope of the current format for this realm. */
  predicate Ours(c: Codec, realm: Realm, e: Entry)
  {
    e.version == 2 && e.namespace == realm.namespace && e.flags == realm.flags && e.checksum == c.hash(e.artifact)
  }

  datatype Status = Compatible | Incompatible | Corrupt | TooLarge | Gone

  /** How a scan counts one record. */
  function Classify(c: Codec, realm: Realm, found: Lookup, id: ArtifactId): Status
  {
    match found
    case Missing => Gone
    case Oversized => TooLarge
    case Hit(bytes) =>
      match c.decode(bytes)
      case None => Corrupt
      case Some(e) =>
        if e.checksum != c.hash(e.artifact) then Corrupt
        else if e.version != 2 || e.namespace != realm.namespace || e.flags != realm.flags then Incompatible
        else if IdOf(c, realm, e.key) != id then Corrupt
        else Compatible
  }

  datatype LoadResult = Loaded(artifact: Bytes) | Absent | Failed

  function LoadFrom(c: Codec, realm: Realm, found: Lookup, key: Bytes): LoadResult
  {
    match found
    case Missing => Absent
    case Oversized => Failed
    case Hit(bytes) =>
      match c.decode(bytes)
      case None => Failed
      case Some(e) => if Ours(c, realm, e) && e.key == key then Loaded(e.artifact) else Failed
  }

  // ----- oldest first -----

  predicate LexLess(a: Bytes, b: Bytes)
  {
    if b == [] then false else if a == [] then true
    else a[0] < b[0] || (a[0] == b[0] && LexLess(a[1..], b[1..]))
  }

  lemma {:induction false} LexTotal(a: Bytes, b: Bytes)
    ensures a == b || LexLess(a, b) || LexLess(b, a)
    ensures !(LexLess(a, b) && LexLess(b, a)) && !LexLess(a, a)
  {
    if a != [] {
      LexTotal(a[1..], a[1..]);
    }
    if a != [] && b != [] {
      LexTotal(a[1..], b[1..]);
      assert a == [a[0]] + a[1..] && b == [b[0]] + b[1..];
    }
  }

  lemma {:induction false} LexTransitive(a: Bytes, b: Bytes, c: Bytes)
    requires LexLess(a, b) && LexLess(b, c)
    ensures LexLess(a, c)
  {
    if a != [] && a[0] == b[0] == c[0] {
      LexTransitive(a[1..], b[1..], c[1..]);
    }
  }

  /** Modification time, then identifier. */
  predicate Earlier(a: Record, b: Record)
  {
    a.modified < b.modified || (a.modified == b.modified && LexLess(a.id, b.id))
  }

  predicate OldestFirst(cs: seq<Record>)
  {
    forall i, j :: 0 <= i < j < |cs| ==> Earlier(cs[i], cs[j])
  }

  lemma EarlierOrder(a: Record, b: Record, c: Record)
    ensures Earlier(a, b) && Earlier(b, c) ==> Earlier(a, c)
    ensures a.id != b.id ==> Earlier(a, b) || Earlier(b, a)
    ensures !(Earlier(a, b) && Earlier(b, a)) && !Earlier(a, a)
  {
    LexTotal(a.id, b.id);
    LexTotal(a.id, a.id);
    if LexLess(a.id, b.id) && LexLess(b.id, c.id) {
      LexTransitive(a.id, b.id, c.id);
    }
  }

  predicate DistinctIds(cs: seq<Record>)
  {
    forall k, l :: 0 <= k < l < |cs| ==> cs[k].id != cs[l].id
  }

  function Insert(cs: seq<Record>, r: Record): seq<Record>
  {
    if cs == [] then [r] else if Earlier(r, cs[0]) then [r] + cs else [cs[0]] + Insert(cs[1..], r)
  }

  function Sort(cs: seq<Record>): seq<Record>
  {
    if cs == [] then [] else Insert(Sort(cs[..|cs| - 1]), cs[|cs| - 1])
  }

  lemma {:induction false} InsertSorted(cs: seq<Record>, r: Record)
    requires OldestFirst(cs) && forall k :: 0 <= k < |cs| ==> cs[k].id != r.id
    ensures OldestFirst(Insert(cs, r)) && |Insert(cs, r)| == |cs| + 1
    ensures forall x :: x in Insert(cs, r) <==> x in cs || x == r
  {
    hide Earlier;
    if cs != [] {
      EarlierOrder(r, cs[0], r);
      if Earlier(r, cs[0]) {
        forall j | 1 <= j < |cs| ensures Earlier(r, cs[j]) {
          EarlierOrder(r, cs[0], cs[j]);
        }
      } else {
        InsertSorted(cs[1..], r);
        var rest := Insert(cs[1..], r);
        forall j | 0 <= j < |rest| ensures Earlier(cs[0], rest[j]) {
          assert rest[j] in rest;
          EarlierOrder(cs[0], r, r);
          if rest[j] != r {
            var k :| 0 <= k < |cs[1..]| && cs[1..][k] == rest[j];
            assert cs[k + 1] == rest[j];
          }
        }
      }
    }
  }

  lemma {:induction false} SortSorts(cs: seq<Record>)
    requires DistinctIds(cs)
    ensures OldestFirst(Sort(cs)) && |Sort(cs)| == |cs| && forall x :: x in Sort(cs) <==> x in cs
  {
    if cs != [] {
      var init, last := cs[..|cs| - 1], cs[|cs| - 1];
      SortSorts(init);
      var s := Sort(init);
      forall k | 0 <= k < |s| ensures s[k].id != last.id {
        assert s[k] in init;
      }
      InsertSorted(s, last);
      assert cs == init + [last];
    }
  }

  lemma SortedDistinct(cs: seq<Record>, k: nat, l: nat)
    requires DistinctIds(cs) && k < l < |Sort(cs)|
    ensures Sort(cs)[k].id != Sort(cs)[l].id
  {
    hide Earlier;
    SortSorts(cs);
    var a, b := Sort(cs)[k], Sort(cs)[l];
    EarlierOrder(a, a, a);
    assert a in cs && b in cs;
    var i :| 0 <= i < |cs| && cs[i] == a;
    var j :| 0 <= j < |cs| && cs[j] == b;
    assert i != j;
  }

  /** There is only one oldest-first listing of a set of records. */
  lemma {:induction false} OldestFirstUnique(a: seq<Record>, b: seq<Record>)
    requires OldestFirst(a) && OldestFirst(b) && forall x :: x in a <==> x in b
    ensures a == b
  {
    hide Earlier;
    assert b != [] ==> b[0] in b;
    if a != [] {
      assert a[0] in a && a[0] in b;
      assert b[0] in a;
      FirstIsFirst(a, b);
      forall x ensures x in a[1..] <==> x in b[1..] {
        TailMembers(a, x);
        TailMembers(b, x);
      }
      OldestFirstUnique(a[1..], b[1..]);
      assert a == [a[0]] + a[1..] && b == [b[0]] + b[1..];
    }
  }

  lemma FirstIsFirst(a: seq<Record>, b: seq<Record>)
    requires OldestFirst(a) && OldestFirst(b) && a != [] && b != [] && a[0] in b && b[0] in a
    ensures a[0] == b[0]
  {
    hide Earlier;
    var i :| 0 <= i < |b| && b[i] == a[0];
    var j :| 0 <= j < |a| && a[j] == b[0];
    EarlierOrder(a[0], b[0], a[0]);
  }

  lemma TailMembers(a: seq<Record>, x: Record)
    requires OldestFirst(a) && a != []
    ensures x in a[1..] <==> x in a && x != a[0]
  {
    hide Earlier;
    EarlierOrder(a[0], a[0], a[0]);
    if x in a && x != a[0] {
      var i :| 0 <= i < |a| && a[i] == x;
      assert a[1..][i - 1] == x;
    }
    if x in a[1..] {
      var i :| 0 <= i < |a[1..]| && a[1..][i] == x;
      assert a[i + 1] == x && Earlier(a[0], a[i + 1]);
    }
  }

  // ----- what a trim removes -----

  function TotalSize(cs: seq<Record>): nat
  {
    if cs == [] then 0 else cs[0].size + TotalSize(cs[1..])
  }

  lemma {:induction false} TotalSizeSplit(cs: seq<Record>, d: nat)
    requires d <= |cs|
    ensures TotalSize(cs) == TotalSize(cs[..d]) + TotalSize(cs[d..])
  {
    if d > 0 {
      TotalSizeSplit(cs[1..], d - 1);
      assert cs[..d][1..] == cs[1..][..d - 1] && cs[1..][d - 1..] == cs[d..];
    } else {
      assert cs[0..] == cs;
    }
  }

  /** How many oldest records must go until the rest fits the budget. */
  function Excess(cs: seq<Record>, budget: nat): (d: nat)
    ensures d <= |cs|
  {
    if TotalSize(cs) <= budget then 0 else 1 + Excess(cs[1..], budget)
  }

  /** The prefix is the shortest that brings the total within the budget. */
  lemma {:induction false} ExcessIsShortest(cs: seq<Record>, budget: nat)
    ensures TotalSize(cs[Excess(cs, budget)..]) <= budget
    ensures forall j :: 0 <= j < Excess(cs, budget) ==> TotalSize(cs[j..]) > budget
  {
    if TotalSize(cs) <= budget {
      assert cs[0..] == cs;
    } else {
      ExcessIsShortest(cs[1..], budget);
      var d := Excess(cs[1..], budget);
      assert cs[1..][d..] == cs[d + 1..];
      forall j | 0 <= j < d + 1 ensures TotalSize(cs[j..]) > budget {
        if j == 0 {
          assert cs[0..] == cs;
        } else {
          assert cs[1..][j - 1..] == cs[j..];
        }
      }
    }
  }

  /** What a cache sees of the store: its codec and realm, the file extension and the entry size limit. */
  datatype View = View(codec: Codec, realm: Realm, extension: string, limit: nat)

  function NamesOf(v: View, cs: seq<Record>): set<string>
  {
    set r | r in cs :: Filename(r.id, v.extension)
  }

  function StatusOf(v: View, files: Directory, id: ArtifactId): Status
  {
    Classify(v.codec, v.realm, LookupIn(files, id, v.extension, v.limit), id)
  }

  predicate IsCandidate(v: View, files: Directory, name: string, r: Record)
  {
    IsEntry(files, name, v.extension) && r == RecordOf(files, name, v.extension) && StatusOf(v, files, r.id) == Compatible
  }

  /** The records are exactly the compatible entries, one each. */
  ghost predicate Candidates(v: View, files: Directory, cs: seq<Record>)
  {
    DistinctIds(cs) && forall r :: r in cs <==> exists name :: IsCandidate(v, files, name, r)
  }

  datatype TrimReport = TrimReport(removedFiles: nat, removedBytes: nat, alreadyAbsent: nat, remaining: nat)

  /** What trimming to a budget means: the shortest oldest prefix of the compatible entries is gone, all else untouched. */
  ghost predicate Trimmed(v: View, before: Directory, after: Directory, budget: nat, report: TrimReport, cs: seq<Record>)
  {
    var d := Excess(cs, budget);
    && Candidates(v, before, cs) && OldestFirst(cs)
    && after == before - NamesOf(v, cs[..d])
    && report == TrimReport(d, TotalSize(cs[..d]), 0, TotalSize(cs[d..]))
  }

  // ----- laws of trimming -----

  /** The budget is met, no byte is lost, and nothing but compatible entries is touched. */
  lemma TrimKeepsTheRest(v: View, before: Directory, after: Directory, budget: nat, report: TrimReport, cs: seq<Record>)
    requires Trimmed(v, before, after, budget, report, cs)
    ensures report.remaining <= budget && report.removedBytes + report.remaining == TotalSize(cs)
    ensures forall name :: name in after <==> name in before && name !in NamesOf(v, cs[..report.removedFiles])
    ensures forall name :: name in after ==> after[name] == before[name]
    ensures forall name :: name in before && (forall r :: !IsCandidate(v, before, name, r)) ==> name in after
  {
    hide Excess, TotalSize, OldestFirst, DistinctIds, IsCandidate;
    ExcessIsShortest(cs, budget);
    TotalSizeSplit(cs, Excess(cs, budget));
    forall name | name in NamesOf(v, cs[..Excess(cs, budget)]) ensures exists r :: IsCandidate(v, before, name, r) {
      var r :| r in cs[..Excess(cs, budget)] && Filename(r.id, v.extension) == name;
      assert r in cs;
      var n :| IsCandidate(v, before, n, r);
      CandidateName(v, before, n, r);
    }
  }

  lemma CandidateName(v: View, files: Directory, name: string, r: Record)
    requires IsCandidate(v, files, name, r)
    ensures name == Filename(r.id, v.extension) && name in files
  {
    FilenameRoundTrip(r.id, v.extension, name);
  }

  /** Entries whose file survives keep their standing, and no new ones appear. */
  lemma SameStanding(v: View, before: Directory, gone: set<string>, name: string, r: Record)
    ensures IsCandidate(v, before - gone, name, r) <==> IsCandidate(v, before, name, r) && name !in gone
  {
    hide Classify;
    if name in before && name !in gone && IsEntry(before, name, v.extension) && r == RecordOf(before, name, v.extension) {
      FilenameRoundTrip(r.id, v.extension, name);
    }
  }

  /** The survivors are exactly what a second scan collects. */
  lemma Survivors(v: View, before: Directory, cs: seq<Record>, d: nat)
    requires Candidates(v, before, cs) && OldestFirst(cs) && d <= |cs|
    ensures Candidates(v, before - NamesOf(v, cs[..d]), cs[d..]) && OldestFirst(cs[d..])
  {
    hide IsCandidate, Earlier;
    var gone := NamesOf(v, cs[..d]);
    forall r ensures r in cs[d..] <==> exists name :: IsCandidate(v, before - gone, name, r) {
      if r in cs[d..] {
        assert r in cs;
        var name :| IsCandidate(v, before, name, r);
        CandidateName(v, before, name, r);
        StillThere(v, cs, d, r);
        SameStanding(v, before, gone, name, r);
      }
      if name :| IsCandidate(v, before - gone, name, r) {
        SameStanding(v, before, gone, name, r);
        CandidateName(v, before, name, r);
        assert r in cs && cs == cs[..d] + cs[d..];
      }
    }
  }

  lemma StillThere(v: View, cs: seq<Record>, d: nat, r: Record)
    requires DistinctIds(cs) && d <= |cs| && r in cs[d..]
    ensures Filename(r.id, v.extension) !in NamesOf(v, cs[..d])
  {
    var k :| 0 <= k < |cs[d..]| && cs[d..][k] == r;
    forall s | s in cs[..d] ensures Filename(s.id, v.extension) != Filename(r.id, v.extension) {
      var l :| 0 <= l < d && cs[l] == s;
      assert cs[l].id != cs[d + k].id;
      if Filename(s.id, v.extension) == Filename(r.id, v.extension) {
        FilenameInjective(s.id, r.id, v.extension);
        assert false;
      }
    }
  }

  /** A second trim to the same budget removes nothing. */
  lemma TrimTwice(v: View, f0: Directory, f1: Directory, f2: Directory, budget: nat,
                  first: TrimReport, second: TrimReport, cs: seq<Record>, ds: seq<Record>)
    requires Trimmed(v, f0, f1, budget, first, cs) && Trimmed(v, f1, f2, budget, second, ds)
    ensures f2 == f1 && second == TrimReport(0, 0, 0, first.remaining)
  {
    hide OldestFirst, Candidates, TotalSize;
    var d := Excess(cs, budget);
    Survivors(v, f0, cs, d);
    SameListing(v, f1, cs[d..], ds);
    ExcessIsShortest(cs, budget);
    assert Excess(ds, budget) == 0;
    NothingRemoved(v, f1, ds);
  }

  lemma NothingRemoved(v: View, files: Directory, cs: seq<Record>)
    ensures files - NamesOf(v, cs[..0]) == files && TotalSize(cs[..0]) == 0 && cs[0..] == cs
  {
    assert NamesOf(v, cs[..0]) == {};
  }

  lemma SameListing(v: View, files: Directory, a: seq<Record>, b: seq<Record>)
    requires Candidates(v, files, a) && Candidates(v, files, b) && OldestFirst(a) && OldestFirst(b)
    ensures a == b
  {
    hide OldestFirst, IsCandidate;
    OldestFirstUnique(a, b);
  }

  // ----- trust -----

  /** Every intact entry of this realm in the directory was put there under its own key. */
  ghost predicate Trusted(v: View, files: Directory, history: set<(Bytes, Bytes)>)
  {
    forall name, e :: name in files && files[name].File? && v.codec.decode(files[name].bytes) == Some(e) && Ours(v.codec, v.realm, e)
      ==> (e.key, e.artifact) in history
  }

  /** The keys and artifacts of the intact entries of this realm. */
  function PastOf(v: View, files: Directory): set<(Bytes, Bytes)>
  {
    set name | name in files && files[name].File? && v.codec.decode(files[name].bytes).Some?
               && Ours(v.codec, v.realm, v.codec.decode(files[name].bytes).value)
      :: (v.codec.decode(files[name].bytes).value.key, v.codec.decode(files[name].bytes).value.artifact)
  }

  /** Any directory can be opened: its own intact entries are a past that accounts for it, and the least one. */
  lemma AnyDirectoryOpens(v: View, files: Directory, past: set<(Bytes, Bytes)>)
    ensures Trusted(v, files, past) <==> PastOf(v, files) <= past
  {
    hide Ours;
  }

  lemma HitIsGenuine(v: View, files: Directory, history: set<(Bytes, Bytes)>, id: ArtifactId, key: Bytes)
    requires Trusted(v, files, history)
    ensures var r := LoadFrom(v.codec, v.realm, LookupIn(files, id, v.extension, v.limit), key);
      r.Loaded? ==> (key, r.artifact) in history
  {
    hide Ours;
  }

  function EntryFor(v: View, key: Bytes, artifact: Bytes): Entry
  {
    Entry(2, v.realm.namespace, key, v.codec.hash(artifact), artifact, v.realm.flags)
  }

  function Published(v: View, files: Directory, key: Bytes, artifact: Bytes, now: int): Directory
  {
    var name, bytes := Filename(IdOf(v.codec, v.realm, key), v.extension), v.codec.encode(EntryFor(v, key, artifact));
    if |bytes| <= v.limit && name !in files then files[name := File(bytes, now)] else files
  }

  /** Publication records its key; a fresh publication that fits is what a later load of that key returns. */
  lemma PublishedTrusted(v: View, files: Directory, history: set<(Bytes, Bytes)>, key: Bytes, artifact: Bytes, now: int)
    requires RoundTrips(v.codec) && Trusted(v, files, history)
    ensures Trusted(v, Published(v, files, key, artifact, now), history + {(key, artifact)})
  {
    var e := EntryFor(v, key, artifact);
    assert v.codec.decode(v.codec.encode(e)) == Some(e);
  }

  lemma LoadAfterPublish(v: View, files: Directory, key: Bytes, artifact: Bytes, now: int)
    requires RoundTrips(v.codec)
    requires Filename(IdOf(v.codec, v.realm, key), v.extension) !in files && |v.codec.encode(EntryFor(v, key, artifact))| <= v.limit
    ensures LoadFrom(v.codec, v.realm,
              LookupIn(Published(v, files, key, artifact, now), IdOf(v.codec, v.realm, key), v.extension, v.limit), key) == Loaded(artifact)
  {
    var e := EntryFor(v, key, artifact);
    assert v.codec.decode(v.codec.encode(e)) == Some(e);
  }

  // ----- the cache -----

  datatype Inspection = Inspection(entryFiles: nat, encodedBytes: nat, compatible: nat, incompatible: nat, corrupt: nat, oversized: nat, ignored: nat)

  /** The entries among the names that have a standing. */
  function WithStatus(v: View, files: Directory, names: set<string>, s: Status): set<string>
  {
    set name | name in names && IsEntry(files, name, v.extension) && StatusOf(v, files, RecordOf(files, name, v.extension).id) == s
  }

  ghost predicate Tallied(v: View, files: Directory, names: set<string>, t: Inspection)
  {
    && t.compatible == |WithStatus(v, files, names, Compatible)|
    && t.incompatible == |WithStatus(v, files, names, Incompatible)|
    && t.corrupt == |WithStatus(v, files, names, Corrupt)|
    && t.oversized == |WithStatus(v, files, names, TooLarge)|
    && t.entryFiles == t.compatible + t.incompatible + t.corrupt + t.oversized
  }

  /** One more entry of a size and standing. */
  function Counted(t: Inspection, size: nat, s: Status): Inspection
  {
    var u := t.(entryFiles := t.entryFiles + 1, encodedBytes := t.encodedBytes + size);
    match s
    case Compatible => u.(compatible := u.compatible + 1)
    case Incompatible => u.(incompatible := u.incompatible + 1)
    case Corrupt => u.(corrupt := u.corrupt + 1)
    case TooLarge => u.(oversized := u.oversized + 1)
    case Gone => u
  }

  lemma WithStatusStep(v: View, files: Directory, names: set<string>, name: string, s: Status)
    requires IsEntry(files, name, v.extension) && name !in names
    ensures |WithStatus(v, files, names + {name}, s)|
         == |WithStatus(v, files, names, s)| + if StatusOf(v, files, RecordOf(files, name, v.extension).id) == s then 1 else 0
  {
    hide StatusOf, IsEntry, RecordOf;
    var before, after := WithStatus(v, files, names, s), WithStatus(v, files, names + {name}, s);
    if StatusOf(v, files, RecordOf(files, name, v.extension).id) == s {
      assert after == before + {name};
    } else {
      assert after == before;
    }
  }

  lemma TallyStep(v: View, files: Directory, names: set<string>, name: string, t: Inspection)
    requires Tallied(v, files, names, t) && IsEntry(files, name, v.extension) && name !in names
    ensures forall size :: Tallied(v, files, names + {name}, Counted(t, size, StatusOf(v, files, RecordOf(files, name, v.extension).id)))
  {
    hide StatusOf, IsEntry, RecordOf, WithStatus;
    EntryPresent(v, files, name);
    forall s: Status {
      WithStatusStep(v, files, names, name, s);
    }
  }

  lemma EntryPresent(v: View, files: Directory, name: string)
    requires IsEntry(files, name, v.extension)
    ensures StatusOf(v, files, RecordOf(files, name, v.extension).id) != Gone
    ensures Filename(RecordOf(files, name, v.extension).id, v.extension) == name
  {
    FilenameRoundTrip(RecordOf(files, name, v.extension).id, v.extension, name);
  }

  ghost predicate Listing(v: View, files: Directory, records: seq<Record>)
  {
    Lists(records, files, files.Keys, v.extension)
  }

  /** The candidates gathered from the first records of a listing. */
  function Gathered(v: View, files: Directory, records: seq<Record>): seq<Record>
  {
    if records == [] then [] else
      var init, last := records[..|records| - 1], records[|records| - 1];
      Gathered(v, files, init) + if StatusOf(v, files, last.id) == Compatible then [last] else []
  }

  lemma {:induction false} GatheredMembers(v: View, files: Directory, records: seq<Record>)
    requires DistinctIds(records)
    ensures DistinctIds(Gathered(v, files, records))
    ensures forall r :: r in Gathered(v, files, records) <==> r in records && StatusOf(v, files, r.id) == Compatible
  {
    hide StatusOf;
    if records != [] {
      var init, last := records[..|records| - 1], records[|records| - 1];
      GatheredMembers(v, files, init);
      assert records == init + [last];
      var g := Gathered(v, files, init);
      forall k | 0 <= k < |g| ensures g[k].id != last.id {
        assert g[k] in init;
      }
    }
  }

  lemma GatheredCandidates(v: View, files: Directory, records: seq<Record>)
    requires Listing(v, files, records)
    ensures Candidates(v, files, Gathered(v, files, records))
  {
    hide StatusOf, IsEntry, RecordOf;
    GatheredMembers(v, files, records);
    forall r ensures r in Gathered(v, files, records) <==> exists name :: IsCandidate(v, files, name, r) {
      if r in Gathered(v, files, records) {
        var name :| name in files.Keys && IsEntry(files, name, v.extension) && r == RecordOf(files, name, v.extension);
        assert IsCandidate(v, files, name, r);
      }
      if name :| IsCandidate(v, files, name, r) {
        EntryPresent(v, files, name);
        CandidateName(v, files, name, r);
      }
    }
  }

  class DiskCache {
    const store: FileStore
    const codec: Codec
    const realm: Realm
    const autoTrim: Option<nat>
    /** Every key and artifact handed to Store, by this cache or an earlier one of its realm. */
    ghost var history: set<(Bytes, Bytes)>

    /** Open a directory, empty or not; past lists what earlier caches of this realm stored in it. */
    constructor (store: FileStore, codec: Codec, realm: Realm, autoTrim: Option<nat>, ghost past: set<(Bytes, Bytes)>)
      requires Trusted(View(codec, realm, store.extension, store.limit), store.files, past)
      ensures this.store == store && this.codec == codec && this.realm == realm && this.autoTrim == autoTrim
      ensures history == past && Valid()
    {
      this.store, this.codec, this.realm, this.autoTrim, history := store, codec, realm, autoTrim, past;
    }

    function Sees(): View
    {
      View(codec, realm, store.extension, store.limit)
    }

    ghost predicate Valid()
      reads this, store
    {
      Trusted(Sees(), store.files, history)
    }

    /** Classify every entry; nothing is changed. */
    method Scan() returns (t: Inspection, candidates: seq<Record>)
      ensures Tallied(Sees(), store.files, store.files.Keys, t) && t.entryFiles + t.ignored == |store.files|
      ensures forall records :: Listing(Sees(), store.files, records) ==> t.encodedBytes == TotalSize(records)
      ensures Candidates(Sees(), store.files, candidates)
    {
      var records, ignored := store.Scan();
      var v := Sees();
      ghost var files := store.files;
      t, candidates := Inspection(0, 0, 0, 0, 0, 0, ignored), [];
      NoneTallied(v, files, records, t);
      var k := 0;
      while k < |records|
        invariant 0 <= k <= |records|
        invariant Scanned(v, files, records, k, t, candidates) && t.ignored == ignored
      {
        hide *;
        var status := StatusOf(v, store.files, records[k].id);
        ScanStep(v, files, records, k, t, candidates);
        t := Counted(t, records[k].size, status);
        if status == Compatible {
          candidates := candidates + [records[k]];
        }
        k := k + 1;
      }
      hide *;
      AllScanned(v, files, records, t, candidates);
    }

    /** Remove the oldest compatible entries until the rest fits the budget. */
    method Trim(budget: nat) returns (report: TrimReport)
      requires Valid()
      modifies store
      ensures Valid()
      ensures exists cs :: Trimmed(Sees(), old(store.files), store.files, budget, report, cs)
    {
      var t, candidates := Scan();
      var cs := Sort(candidates);
      SortedCandidates(Sees(), store.files, candidates);
      report := RemoveExcess(cs, budget);
    }

    method RemoveExcess(cs: seq<Record>, budget: nat) returns (report: TrimReport)
      requires Valid() && Candidates(Sees(), store.files, cs) && OldestFirst(cs)
      modifies store
      ensures Valid() && Trimmed(Sees(), old(store.files), store.files, budget, report, cs)
    {
      hide OldestFirst, Candidates, Ours, TotalSize;
      ghost var v, before := Sees(), store.files;
      var remaining := TotalOf(cs);
      var files, bytes, absent, i := 0, 0, 0, 0;
      NothingRemoved(v, before, cs);
      while i < |cs| && remaining > budget
        invariant 0 <= i <= |cs| && files == i && absent == 0
        invariant bytes == TotalSize(cs[..i]) && remaining == TotalSize(cs[i..])
        invariant forall l :: 0 <= l < i ==> TotalSize(cs[l..]) > budget
        invariant store.files == before - NamesOf(v, cs[..i])
      {
        TrimStep(v, before, cs, i);
        var removed := store.Remove(cs[i].id);
        if removed {
          files, bytes := files + 1, bytes + cs[i].size;
        } else {
          absent := absent + 1;
        }
        remaining, i := remaining - cs[i].size, i + 1;
      }
      report := TrimReport(files, bytes, absent, remaining);
      ExcessReached(cs, budget, i);
    }

    /** A hit is an artifact handed to Store under exactly this key, even if identifiers collide. */
    method Load(key: Bytes) returns (r: LoadResult)
      requires Valid()
      ensures r.Loaded? ==> (key, r.artifact) in history
      ensures r == LoadFrom(codec, realm, LookupIn(store.files, IdOf(codec, realm, key), store.extension, store.limit), key)
    {
      HitIsGenuine(Sees(), store.files, history, IdOf(codec, realm, key), key);
      r := LoadFrom(codec, realm, LookupIn(store.files, IdOf(codec, realm, key), store.extension, store.limit), key);
    }

    /** Publish the artifact under its key, then trim if automatic trimming is on. */
    method Store(key: Bytes, artifact: Bytes, now: int) returns (ok: bool)
      requires Valid() && RoundTrips(codec)
      modifies this, store
      ensures Valid() && history == old(history) + {(key, artifact)}
      ensures ok <==> |codec.encode(EntryFor(Sees(), key, artifact))| <= store.limit
      ensures var f := Published(Sees(), old(store.files), key, artifact, now);
        if ok && autoTrim.Some?
        then exists report, cs :: Trimmed(Sees(), f, store.files, autoTrim.value, report, cs)
        else store.files == f
    {
      PublishedTrusted(Sees(), store.files, history, key, artifact, now);
      ok := store.Publish(IdOf(codec, realm, key), codec.encode(EntryFor(Sees(), key, artifact)), now);
      history := history + {(key, artifact)};
      if ok && autoTrim.Some? {
        var report := Trim(autoTrim.value);
      }
    }
  }

  method TotalOf(cs: seq<Record>) returns (total: nat)
    ensures total == TotalSize(cs)
  {
    total := 0;
    var j := 0;
    while j < |cs|
      invariant 0 <= j <= |cs| && total == TotalSize(cs[..j])
    {
      NextSize(cs, j);
      total, j := total + cs[j].size, j + 1;
    }
    assert cs[..j] == cs;
  }

  lemma ExcessReached(cs: seq<Record>, budget: nat, i: nat)
    requires i <= |cs| && (i == |cs| || TotalSize(cs[i..]) <= budget)
    requires forall l :: 0 <= l < i ==> TotalSize(cs[l..]) > budget
    ensures i == Excess(cs, budget)
  {
    ExcessIsShortest(cs, budget);
    assert i == |cs| ==> TotalSize(cs[i..]) == 0;
  }

  /** The state of a scan after the first records. */
  ghost predicate Scanned(v: View, files: Directory, records: seq<Record>, k: nat, t: Inspection, candidates: seq<Record>)
  {
    && k <= |records| && Listing(v, files, records) && t.entryFiles == k && t.encodedBytes == TotalSize(records[..k])
    && Tallied(v, files, NamesOf(v, records[..k]), t)
    && candidates == Gathered(v, files, records[..k])
  }

  lemma NoneTallied(v: View, files: Directory, records: seq<Record>, t: Inspection)
    requires Listing(v, files, records) && t == Inspection(0, 0, 0, 0, 0, 0, t.ignored)
    ensures Scanned(v, files, records, 0, t, [])
  {
    hide StatusOf, IsEntry, Lists;
    forall s: Status ensures WithStatus(v, files, NamesOf(v, records[..0]), s) == {} {
    }
  }

  lemma ScanStep(v: View, files: Directory, records: seq<Record>, k: nat, t: Inspection, candidates: seq<Record>)
    requires k < |records| && Scanned(v, files, records, k, t, candidates)
    ensures var status := StatusOf(v, files, records[k].id);
      Scanned(v, files, records, k + 1, Counted(t, records[k].size, status), if status == Compatible then candidates + [records[k]] else candidates)
    ensures Counted(t, records[k].size, StatusOf(v, files, records[k].id)).ignored == t.ignored
  {
    hide StatusOf, IsEntry, RecordOf, Tallied, NamesOf, DistinctIds, TotalSize;
    NamesStep(v, records, k);
    NextSize(records, k);
    GatheredStep(v, files, records, k);
    assert records[k] in records;
    var name :| name in files.Keys && IsEntry(files, name, v.extension) && records[k] == RecordOf(files, name, v.extension);
    EntryPresent(v, files, name);
    ListingDistinct(v, files, records);
    FreshName(v, records, k);
    TallyStep(v, files, NamesOf(v, records[..k]), name, t);
  }

  lemma ListingDistinct(v: View, files: Directory, records: seq<Record>)
    requires Listing(v, files, records)
    ensures DistinctIds(records)
  {
    hide IsEntry, RecordOf;
  }

  lemma NamesStep(v: View, records: seq<Record>, k: nat)
    requires k < |records|
    ensures NamesOf(v, records[..k + 1]) == NamesOf(v, records[..k]) + {Filename(records[k].id, v.extension)}
  {
    assert records[..k + 1] == records[..k] + [records[k]];
  }

  lemma GatheredStep(v: View, files: Directory, records: seq<Record>, k: nat)
    requires k < |records|
    ensures Gathered(v, files, records[..k + 1])
         == Gathered(v, files, records[..k]) + if StatusOf(v, files, records[k].id) == Compatible then [records[k]] else []
  {
    hide StatusOf;
    assert records[..k + 1][..k] == records[..k];
  }

  lemma AllScanned(v: View, files: Directory, records: seq<Record>, t: Inspection, candidates: seq<Record>)
    requires Scanned(v, files, records, |records|, t, candidates)
    ensures t.entryFiles == |records| && Tallied(v, files, files.Keys, t) && Candidates(v, files, candidates)
    ensures forall other :: Listing(v, files, other) ==> t.encodedBytes == TotalSize(other)
  {
    hide Tallied, Lists, Gathered, Candidates, TotalSize;
    assert records[..|records|] == records;
    GatheredCandidates(v, files, records);
    AllTallied(v, files, records, t);
    forall other | Listing(v, files, other) ensures TotalSize(other) == TotalSize(records) {
      SameTotal(v, files, other, records);
    }
  }

  lemma {:induction false} InsertTotal(cs: seq<Record>, r: Record)
    ensures TotalSize(Insert(cs, r)) == TotalSize(cs) + r.size
  {
    hide Earlier;
    if cs == [] {
      assert TotalSize([r]) == r.size + TotalSize([r][1..]);
    } else if Earlier(r, cs[0]) {
      assert ([r] + cs)[1..] == cs;
    } else {
      InsertTotal(cs[1..], r);
      assert ([cs[0]] + Insert(cs[1..], r))[1..] == Insert(cs[1..], r);
    }
  }

  lemma {:induction false} SortTotal(cs: seq<Record>)
    ensures TotalSize(Sort(cs)) == TotalSize(cs)
  {
    hide Insert;
    if cs != [] {
      var n := |cs| - 1;
      SortTotal(cs[..n]);
      InsertTotal(Sort(cs[..n]), cs[n]);
      NextSize(cs, n);
      assert cs[..n + 1] == cs;
    }
  }

  /** The total does not depend on the directory order. */
  lemma SameTotal(v: View, files: Directory, a: seq<Record>, b: seq<Record>)
    requires Listing(v, files, a) && Listing(v, files, b)
    ensures TotalSize(a) == TotalSize(b)
  {
    hide IsEntry, RecordOf, TotalSize, Sort;
    SortSorts(a);
    SortSorts(b);
    OldestFirstUnique(Sort(a), Sort(b));
    SortTotal(a);
    SortTotal(b);
  }

  lemma FreshName(v: View, records: seq<Record>, k: nat)
    requires k < |records| && DistinctIds(records)
    ensures Filename(records[k].id, v.extension) !in NamesOf(v, records[..k])
  {
    assert records[k] == records[k..][0];
    StillThere(v, records, k, records[k]);
  }

  lemma AllTallied(v: View, files: Directory, records: seq<Record>, t: Inspection)
    requires Listing(v, files, records) && Tallied(v, files, NamesOf(v, records), t)
    ensures Tallied(v, files, files.Keys, t)
  {
    hide StatusOf, IsEntry, RecordOf;
    var names := NamesOf(v, records);
    forall name | IsEntry(files, name, v.extension) ensures name in names <==> name in files.Keys {
      EntryPresent(v, files, name);
      EntryNamed(v, files, records, name);
    }
    forall s: Status ensures WithStatus(v, files, names, s) == WithStatus(v, files, files.Keys, s) {
      SameStatus(v, files, names, files.Keys, s);
    }
  }

  lemma SameStatus(v: View, files: Directory, a: set<string>, b: set<string>, s: Status)
    requires forall name | IsEntry(files, name, v.extension) :: name in a <==> name in b
    ensures WithStatus(v, files, a, s) == WithStatus(v, files, b, s)
  {
    hide IsEntry, StatusOf, RecordOf;
  }

  lemma EntryNamed(v: View, files: Directory, records: seq<Record>, name: string)
    requires Listing(v, files, records) && IsEntry(files, name, v.extension)
    ensures name in files.Keys && name in NamesOf(v, records)
  {
    EntryPresent(v, files, name);
    assert RecordOf(files, name, v.extension) in records;
  }

  lemma SortedCandidates(v: View, files: Directory, cs: seq<Record>)
    requires Candidates(v, files, cs)
    ensures Candidates(v, files, Sort(cs)) && OldestFirst(Sort(cs))
  {
    hide IsCandidate;
    SortSorts(cs);
    var s := Sort(cs);
    forall k, l | 0 <= k < l < |s| ensures s[k].id != s[l].id {
      SortedDistinct(cs, k, l);
    }
  }

  lemma NextSize(cs: seq<Record>, i: nat)
    requires i < |cs|
    ensures TotalSize(cs[..i + 1]) == TotalSize(cs[..i]) + cs[i].size && TotalSize(cs[i..]) == cs[i].size + TotalSize(cs[i + 1..])
  {
    TotalSizeSplit(cs[..i + 1], i);
    assert cs[..i + 1][..i] == cs[..i] && cs[..i + 1][i..] == [cs[i]];
    assert cs[i..][1..] == cs[i + 1..];
  }

  lemma TrimStep(v: View, before: Directory, cs: seq<Record>, i: nat)
    requires i < |cs| && Candidates(v, before, cs)
    ensures Filename(cs[i].id, v.extension) in before - NamesOf(v, cs[..i])
    ensures before - NamesOf(v, cs[..i + 1]) == before - NamesOf(v, cs[..i]) - {Filename(cs[i].id, v.extension)}
    ensures TotalSize(cs[..i + 1]) == TotalSize(cs[..i]) + cs[i].size && TotalSize(cs[i..]) == cs[i].size + TotalSize(cs[i + 1..])
  {
    hide IsCandidate;
    NextSize(cs, i);
    assert cs[i] in cs;
    var name :| IsCandidate(v, before, name, cs[i]);
    CandidateName(v, before, name, cs[i]);
    FreshName(v, cs, i);
    assert cs[..i + 1] == cs[..i] + [cs[i]];
    assert NamesOf(v, cs[..i + 1]) == NamesOf(v, cs[..i]) + {Filename(cs[i].id, v.extension)};
  }
}
