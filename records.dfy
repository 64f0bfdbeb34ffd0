/**
 * The records routes: a record is saved as `records/record_<timestamp>.json` with the colons of
 * the timestamp replaced by dashes, fetched back by that id, and listed newest first. The records
 * directory is the `RecordStore` class; `JSON.stringify` followed by `JSON.parse` gives the record
 * back, so a file holds the record itself, or is `Corrupt` when reading or parsing it throws.
 */
module Records {
  import opened Wrappers
  import opened Text
  import opened Domain

  /** `timestamp.replace(/:/g, '-')`. */
  function SafeTimestamp(ts: string): (r: string)
    ensures |r| == |ts| && ':' !in r
    ensures forall i :: 0 <= i < |ts| && ts[i] != ':' ==> r[i] == ts[i]
    ensures forall i :: 0 <= i < |ts| && ts[i] == ':' ==> r[i] == '-'
  {
    ReplaceChar(ts, ':', '-')
  }

  /** The file name a record with timestamp `ts` is saved under: `record_`, the timestamp with
      its colons turned into dashes, `.json`; the name never contains a colon. */
  function FileName(ts: string): (name: string)
    ensures ':' !in name
    ensures "record_" <= name && EndsWith(name, ".json")
    ensures |name| == |ts| + 12 && name[7..|name| - 5] == SafeTimestamp(ts)
  {
    var name := "record_" + SafeTimestamp(ts) + ".json";
    assert name[7..|name| - 5] == SafeTimestamp(ts);
    assert name[|name| - 5..] == ".json";
    name
  }

  /** The file name `GET /:id` looks up. */
  function IdFileName(id: string): string {
    "record_" + id + ".json"
  }

  /** `recordData.timestamp || new Date().toISOString()`: an absent or empty timestamp is
      replaced by the current time. */
  function TimestampFor(r: Record, now: string): (ts: string)
    ensures Truthy(r.timestamp) ==> ts == r.timestamp.value
    ensures !Truthy(r.timestamp) ==> ts == now
  {
    if Truthy(r.timestamp) then r.timestamp.value else now
  }

  /** A saved record is fetched back by the dash-replaced timestamp, never by an id with a colon. */
  lemma {:induction false} SavedUnderSafeTimestamp(ts: string, id: string)
    ensures IdFileName(SafeTimestamp(ts)) == FileName(ts)
    ensures ':' in id ==> IdFileName(id) != FileName(ts)
  {
    if ':' in id {
      var i :| 0 <= i < |id| && id[i] == ':';
      if |id| == |SafeTimestamp(ts)| {
        assert IdFileName(id)[7 + i] == ':';
        assert FileName(ts)[7 + i] == SafeTimestamp(ts)[i];
      }
    }
  }

  /** Two timestamps that differ only in colons versus dashes name the same file, so the later
      save overwrites the earlier one. */
  lemma ColonAndDashCollide()
    ensures "10:30" != "10-30" && FileName("10:30") == FileName("10-30")
  {
    assert SafeTimestamp("10:30") == "10-30";
    assert SafeTimestamp("10-30") == "10-30";
  }

  /** `new Date(record.timestamp)` as a time value; `None` for NaN (an absent or unparseable
      timestamp). `parse` is `Date.parse`. */
  function Instant(r: Record, parse: string -> Option<int>): Option<int> {
    if r.timestamp.Some? then parse(r.timestamp.value) else None
  }

  /** The comparator `new Date(b.timestamp) - new Date(a.timestamp)` is negative: `a` goes first.
      A NaN difference counts as equal. */
  predicate Newer(a: Record, b: Record, parse: string -> Option<int>) {
    Instant(a, parse).Some? && Instant(b, parse).Some? && Instant(a, parse).value > Instant(b, parse).value
  }

  /** Stable insertion of `x` in front of every element it is not strictly older than. */
  function Insert(x: Record, s: seq<Record>, parse: string -> Option<int>): (r: seq<Record>)
    ensures multiset(r) == multiset(s) + multiset{x}
    ensures |r| == |s| + 1
    ensures forall i :: 0 <= i < |r| ==> r[i] == x || r[i] in s
  {
    if s == [] then [x]
    else if Newer(s[0], x, parse) then
      assert s == [s[0]] + s[1..];
      [s[0]] + Insert(x, s[1..], parse)
    else [x] + s
  }

  /** `Array.prototype.sort` with the newest-first comparator, as a stable sort. */
  function SortNewestFirst(s: seq<Record>, parse: string -> Option<int>): (r: seq<Record>)
    ensures |r| == |s|
    ensures forall i :: 0 <= i < |r| ==> r[i] in s
  {
    if s == [] then [] else Insert(s[0], SortNewestFirst(s[1..], parse), parse)
  }

  predicate NewestFirst(s: seq<Record>, parse: string -> Option<int>) {
    forall i, j :: 0 <= i < j < |s| ==> !Newer(s[j], s[i], parse)
  }

  predicate AllDated(s: seq<Record>, parse: string -> Option<int>) {
    forall i :: 0 <= i < |s| ==> Instant(s[i], parse).Some?
  }

  /** Sorting returns the same records, each as often as before. */
  lemma {:induction false} SortPermutes(s: seq<Record>, parse: string -> Option<int>)
    ensures multiset(SortNewestFirst(s, parse)) == multiset(s)
  {
    if s != [] {
      SortPermutes(s[1..], parse);
      assert s == [s[0]] + s[1..];
    }
  }

  lemma DatedTail(s: seq<Record>, parse: string -> Option<int>)
    requires s != [] && AllDated(s, parse) && NewestFirst(s, parse)
    ensures AllDated(s[1..], parse) && NewestFirst(s[1..], parse)
  {
    forall i | 0 <= i < |s[1..]| ensures s[1..][i] == s[i + 1] {
    }
  }

  /** A dated record that is not newer than the first of a newest-first list goes in front. */
  lemma InsertInFront(x: Record, s: seq<Record>, parse: string -> Option<int>)
    requires AllDated(s, parse) && Instant(x, parse).Some? && NewestFirst(s, parse)
    requires s == [] || !Newer(s[0], x, parse)
    ensures AllDated([x] + s, parse) && NewestFirst([x] + s, parse)
  {
    var r := [x] + s;
    forall i | 1 <= i < |r| ensures r[i] == s[i - 1] {
    }
    forall i, j | 0 <= i < j < |r| ensures !Newer(r[j], r[i], parse) {
      if i == 0 && j > 1 {
        assert !Newer(s[j - 1], s[0], parse);
      }
    }
  }

  /** A dated record placed after the first of a newest-first list that is newer than it. */
  lemma InsertBehind(head: Record, rest: seq<Record>, parse: string -> Option<int>)
    requires AllDated(rest, parse) && NewestFirst(rest, parse) && Instant(head, parse).Some?
    requires forall j :: 0 <= j < |rest| ==> !Newer(rest[j], head, parse)
    ensures AllDated([head] + rest, parse) && NewestFirst([head] + rest, parse)
  {
    var r := [head] + rest;
    forall i | 1 <= i < |r| ensures r[i] == rest[i - 1] {
    }
  }

  lemma {:induction false} InsertKeepsOrder(x: Record, s: seq<Record>, parse: string -> Option<int>)
    requires AllDated(s, parse) && Instant(x, parse).Some? && NewestFirst(s, parse)
    ensures AllDated(Insert(x, s, parse), parse) && NewestFirst(Insert(x, s, parse), parse)
  {
    if s == [] || !Newer(s[0], x, parse) {
      InsertInFront(x, s, parse);
    } else {
      var tail := s[1..];
      DatedTail(s, parse);
      InsertKeepsOrder(x, tail, parse);
      var rest := Insert(x, tail, parse);
      forall j | 0 <= j < |rest| ensures !Newer(rest[j], s[0], parse) {
        if rest[j] != x {
          var k :| 0 <= k < |tail| && tail[k] == rest[j];
          assert s[k + 1] == rest[j];
        }
      }
      InsertBehind(s[0], rest, parse);
    }
  }

  /** When every timestamp parses, the list comes out newest first. */
  lemma {:induction false} SortOrdersDated(s: seq<Record>, parse: string -> Option<int>)
    requires AllDated(s, parse)
    ensures NewestFirst(SortNewestFirst(s, parse), parse)
    ensures AllDated(SortNewestFirst(s, parse), parse)
  {
    if s != [] {
      assert AllDated(s[1..], parse) by {
        forall i | 0 <= i < |s[1..]| ensures Instant(s[1..][i], parse).Some? {
          assert s[1..][i] == s[i + 1];
        }
      }
      SortOrdersDated(s[1..], parse);
      InsertKeepsOrder(s[0], SortNewestFirst(s[1..], parse), parse);
    }
  }

  /** What a directory entry holds: a record, or a file whose reading or parsing throws. */
  datatype StoredFile = Stored(record: Record) | Corrupt

  /** The JSON bodies of the three routes. */
  datatype RecordsResponse =
    | Listed(records: seq<Record>)
    | Found(record: Record)
    | Saved(filename: string)
    | Failure(status: nat, error: string)

  const MissingRecordError: string := "缺少记录数据"
  const RecordNotFoundError: string := "记录不存在"
  const ReadRecordsError: string := "获取记录失败"

  /** `files.filter(file => file.endsWith('.json'))`, keeping directory order. */
  function JsonNames(names: seq<string>): (r: seq<string>)
    ensures forall n :: n in r <==> n in names && EndsWith(n, ".json")
    ensures |r| <= |names|
  {
    if names == [] then []
    else (if EndsWith(names[0], ".json") then [names[0]] else []) + JsonNames(names[1..])
  }

  /** The filter keeps a single name exactly when it ends in ".json". */
  lemma JsonNamesSingle(n: string)
    ensures JsonNames([n]) == (if EndsWith(n, ".json") then [n] else [])
  {
    assert [n][1..] == [];
  }

  /** The filter works name by name, so the `.json` names keep their directory order and each
      appears as often as it is listed. */
  lemma {:induction false} JsonNamesAppend(a: seq<string>, b: seq<string>)
    ensures JsonNames(a + b) == JsonNames(a) + JsonNames(b)
  {
    if a != [] {
      assert (a + b)[0] == a[0];
      assert (a + b)[1..] == a[1..] + b;
      JsonNamesAppend(a[1..], b);
    } else {
      assert a + b == b;
    }
  }

  /** `.map(file => JSON.parse(readFileSync(file)))`: the records in the given order, or `None`
      as soon as one file cannot be read and parsed. */
  function ReadAll(names: seq<string>, files: map<string, StoredFile>): (r: Option<seq<Record>>)
    requires forall n :: n in names ==> n in files
    ensures r.None? <==> exists i :: 0 <= i < |names| && files[names[i]].Corrupt?
    ensures r.Some? ==> |r.value| == |names| && forall i :: 0 <= i < |names| ==> files[names[i]] == Stored(r.value[i])
  {
    if names == [] then Some([])
    else
      match files[names[0]]
      case Corrupt => None
      case Stored(rec) =>
        var rest := ReadAll(names[1..], files);
        if rest.None? then
          var i :| 0 <= i < |names[1..]| && files[names[1..][i]].Corrupt?;
          assert files[names[i + 1]].Corrupt?;
          None
        else
          var r := [rec] + rest.value;
          assert forall i :: 1 <= i < |names| ==> files[names[i]] == files[names[1..][i - 1]];
          Some(r)
  }

  /** The `records` directory: the files by name, and the order in which `readdirSync` lists them. */
  class RecordStore {
    var files: map<string, StoredFile>
    var names: seq<string>

    /** The listing names every file exactly once. */
    predicate Valid()
      reads this
    {
      && (forall n :: n in names ==> n in files)
      && (forall n :: n in files ==> n in names)
      && (forall i, j :: 0 <= i < j < |names| ==> names[i] != names[j])
    }

    /** The directory as created at start-up: empty. */
    constructor ()
      ensures Valid() && files == map[] && names == []
    {
      files := map[];
      names := [];
    }

    /**
     * `POST /save`. A missing body answers 400 and writes nothing. Otherwise the body is written,
     * unchanged, to the file named after its timestamp (or `now`), replacing a file of that name;
     * a new name is added at the end of the listing.
     */
    method Save(body: Option<Record>, now: string) returns (res: RecordsResponse)
      requires Valid()
      modifies this
      ensures Valid()
      ensures body.None? ==> res == Failure(400, MissingRecordError) && files == old(files) && names == old(names)
      ensures body.Some? ==>
                var name := FileName(TimestampFor(body.value, now));
                && res == Saved(name)
                && files == old(files)[name := Stored(body.value)]
                && names == (if name in old(files) then old(names) else old(names) + [name])
    {
      if body.None? {
        return Failure(400, MissingRecordError);
      }
      var timestamp := TimestampFor(body.value, now);
      var safeTimestamp := SafeTimestamp(timestamp);
      var filename := "record_" + safeTimestamp + ".json";
      if filename !in files {
        names := names + [filename];
      }
      files := files[filename := Stored(body.value)];
      res := Saved(filename);
    }

    /** `GET /:id`: 404 when no file has the name, 500 when it cannot be read and parsed,
        otherwise the record it holds. */
    function Get(id: string): (r: RecordsResponse)
      reads this
      ensures r.Found? <==> IdFileName(id) in files && files[IdFileName(id)].Stored?
      ensures r.Found? ==> files[IdFileName(id)] == Stored(r.record)
      ensures IdFileName(id) !in files ==> r == Failure(404, RecordNotFoundError)
      ensures IdFileName(id) in files && files[IdFileName(id)].Corrupt? ==> r == Failure(500, ReadRecordsError)
    {
      var name := IdFileName(id);
      if name !in files then Failure(404, RecordNotFoundError)
      else match files[name]
        case Corrupt => Failure(500, ReadRecordsError)
        case Stored(rec) => Found(rec)
    }

    /**
     * `GET /`: 500 when any `.json` file cannot be read and parsed; otherwise the records of the
     * `.json` files, sorted newest first (files with other names are ignored).
     */
    function List(parse: string -> Option<int>): (r: RecordsResponse)
      requires Valid()
      reads this
      ensures r.Listed? || r == Failure(500, ReadRecordsError)
      ensures r.Listed? <==> forall n :: n in names && EndsWith(n, ".json") ==> files[n].Stored?
      ensures r.Listed? ==>
                && ReadAll(JsonNames(names), files).Some?
                && r.records == SortNewestFirst(ReadAll(JsonNames(names), files).value, parse)
    {
      var json := JsonNames(names);
      match ReadAll(json, files)
      case None => Failure(500, ReadRecordsError)
      case Some(records) =>
        assert forall n :: n in names && EndsWith(n, ".json") ==> files[n].Stored? by {
          forall n | n in names && EndsWith(n, ".json") ensures files[n].Stored? {
            var i :| 0 <= i < |json| && json[i] == n;
          }
        }
        Listed(SortNewestFirst(records, parse))
    }
  }

  /** Every listed record is the content of one `.json` file, each file's record appears, and
      the list is newest first whenever every timestamp parses. */
  lemma ListedRecordsAreTheJsonFiles(names: seq<string>, files: map<string, StoredFile>, parse: string -> Option<int>)
    requires forall n :: n in names ==> n in files
    requires ReadAll(JsonNames(names), files).Some?
    ensures var read := ReadAll(JsonNames(names), files).value;
      && multiset(SortNewestFirst(read, parse)) == multiset(read)
      && (forall n :: n in names && EndsWith(n, ".json") ==> files[n].Stored? && files[n].record in SortNewestFirst(read, parse))
      && (AllDated(read, parse) ==> NewestFirst(SortNewestFirst(read, parse), parse))
  {
    var json := JsonNames(names);
    var read := ReadAll(json, files).value;
    SortPermutes(read, parse);
    forall n | n in names && EndsWith(n, ".json")
      ensures files[n].Stored? && files[n].record in SortNewestFirst(read, parse)
    {
      var i :| 0 <= i < |json| && json[i] == n;
      assert read[i] in multiset(read);
    }
    if AllDated(read, parse) {
      SortOrdersDated(read, parse);
    }
  }

  /** Saving a record and then fetching it by the dash-replaced timestamp gives the record back. */
  method SaveThenGet(store: RecordStore, r: Record, now: string) returns (fetched: RecordsResponse)
    requires store.Valid()
    modifies store
    ensures fetched == Found(r)
  {
    var saved := store.Save(Some(r), now);
    SavedUnderSafeTimestamp(TimestampFor(r, now), "");
    fetched := store.Get(SafeTimestamp(TimestampFor(r, now)));
  }
}
