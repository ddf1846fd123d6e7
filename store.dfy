/**
 * The file-backed record store as values: the data folder and one JSON file
 * per collection, and what ensuring, appending and deleting by position do
 * to them.
 */
module Store {
  import opened Wrappers
  import opened Numerals
  import opened Records

  /** The four collections, one file each. */
  datatype Collection = Attendance | Leave | Rooms | WardenMessages

  /** The order in which the server ensures the four files when it starts. */
  const AllCollections: seq<Collection> := [Attendance, Leave, Rooms, WardenMessages]

  /**
   * The data folder and the collection files in it: a collection that is not
   * a key of `files` has no file yet.
   */
  datatype Disk = Disk(folder: bool, files: map<Collection, seq<Record>>)

  /** A collection file exists only inside an existing data folder. */
  predicate Valid(d: Disk)
  {
    !d.folder ==> d.files == map[]
  }

  /** The records a read of `c` yields once `c` has been ensured: none for a missing file. */
  function Contents(d: Disk, c: Collection): seq<Record>
  {
    if c in d.files then d.files[c] else []
  }

  /**
   * `ensureFileExists`: create the data folder when it is missing, and the
   * file of `c` holding an empty array when that is missing.
   */
  function Ensure(d: Disk, c: Collection): (e: Disk)
    ensures Valid(e) && c in e.files
    ensures c !in d.files ==> e.files[c] == []
    ensures c in d.files ==> e.files[c] == d.files[c]
    ensures e.files - {c} == d.files - {c}
    ensures d.folder && c in d.files ==> e == d
  {
    Disk(true, if c in d.files then d.files else d.files[c := []])
  }

  /** Ensuring twice is ensuring once. */
  lemma EnsureIdempotent(d: Disk, c: Collection)
    ensures Ensure(Ensure(d, c), c) == Ensure(d, c)
  {
  }

  /** Ensuring one collection leaves what every collection reads as unchanged. */
  lemma EnsureKeepsContents(d: Disk, c: Collection, c': Collection)
    ensures Contents(Ensure(d, c), c') == Contents(d, c')
  {
    if c' != c {
      assert c' in Ensure(d, c).files - {c} <==> c' in d.files - {c};
    }
  }

  /** A submit route: ensure the file, read it, push `r` onto the end, write it back. */
  function Append(d: Disk, c: Collection, r: Record): (e: Disk)
    ensures Valid(e) && c in e.files
    ensures Contents(e, c) == Contents(d, c) + [r]
    ensures e.files - {c} == d.files - {c}
  {
    var s := Ensure(d, c);
    Disk(s.folder, s.files[c := s.files[c] + [r]])
  }

  /** Submitting the records `rs` one after another. */
  function AppendAll(d: Disk, c: Collection, rs: seq<Record>): Disk
    decreases |rs|
  {
    if rs == [] then d else AppendAll(Append(d, c, rs[0]), c, rs[1..])
  }

  /**
   * After a series of submissions the collection reads as what it held
   * before followed by the submitted records in submission order, and the
   * other collections are as they were.
   */
  lemma {:induction false} AppendAllContents(d: Disk, c: Collection, rs: seq<Record>)
    ensures Contents(AppendAll(d, c, rs), c) == Contents(d, c) + rs
    ensures AppendAll(d, c, rs).files - {c} == d.files - {c}
    decreases |rs|
  {
    if rs != [] {
      var d' := Append(d, c, rs[0]);
      AppendAllContents(d', c, rs[1..]);
      assert Contents(d, c) + [rs[0]] + rs[1..] == Contents(d, c) + rs;
    }
  }

  /**
   * On a store where `c` reads as empty (its file is missing, or holds the
   * empty array as after launch), reading after the submissions gives
   * exactly the submitted records, whatever the other collections hold.
   */
  lemma FreshAppendsRead(d: Disk, c: Collection, rs: seq<Record>)
    requires Contents(d, c) == []
    ensures Contents(AppendAll(d, c, rs), c) == rs
  {
    AppendAllContents(d, c, rs);
  }

  /** `splice(i, 1)`: the records without the one at position `i`, the rest in their order. */
  function Splice(s: seq<Record>, i: nat): (t: seq<Record>)
    requires i < |s|
    ensures |t| == |s| - 1
    ensures forall j | 0 <= j < i :: t[j] == s[j]
    ensures forall j | i <= j < |t| :: t[j] == s[j + 1]
    ensures multiset(t) + multiset{s[i]} == multiset(s)
  {
    assert s == s[..i] + [s[i]] + s[i + 1..];
    s[..i] + s[i + 1..]
  }

  /** The delete guard `index >= 0 && index < length`; both comparisons are false for NaN. */
  predicate ValidIndex(index: Option<int>, length: nat)
  {
    index.Some? && 0 <= index.value < length
  }

  /**
   * The delete route: ensure the file, read it, and when the index is in
   * range remove that record and write the rest back; otherwise write nothing.
   */
  function DeleteAt(d: Disk, c: Collection, index: Option<int>): (e: Disk)
    ensures Valid(e) && c in e.files
    ensures ValidIndex(index, |Contents(d, c)|) ==> Contents(e, c) == Splice(Contents(d, c), index.value)
    ensures !ValidIndex(index, |Contents(d, c)|) ==> e == Ensure(d, c) && Contents(e, c) == Contents(d, c)
    ensures e.files - {c} == d.files - {c}
  {
    var s := Ensure(d, c);
    var data := s.files[c];
    if ValidIndex(index, |data|) then Disk(s.folder, s.files[c := Splice(data, index.value)]) else s
  }

  /**
   * Deleting by the decimal text of a position in range removes the record
   * at that position: the page that lists the rooms names a room this way.
   */
  lemma DeleteByDecimalIndex(d: Disk, c: Collection, i: nat)
    requires i < |Contents(d, c)|
    ensures Contents(DeleteAt(d, c, ParseInt(DecimalString(i))), c) == Splice(Contents(d, c), i)
  {
    ParseDecimal(i, []);
    assert DecimalString(i) + [] == DecimalString(i);
  }

  /** Deleting by a negative position changes no record. */
  lemma DeleteByNegativeIndex(d: Disk, c: Collection, i: nat)
    ensures Contents(DeleteAt(d, c, ParseInt("-" + DecimalString(i + 1))), c) == Contents(d, c)
  {
    ParseNegativeDecimal(i + 1);
  }

  /** Deleting by a text that holds no decimal digit, such as "NaN", changes no record. */
  lemma DeleteByNonNumericIndex(d: Disk, c: Collection, index: string)
    requires forall j :: 0 <= j < |index| ==> !IsDigitIn(index[j], 10)
    ensures DeleteAt(d, c, ParseInt(index)) == Ensure(d, c)
  {
    NoDigitIsNaN(index);
  }
}
