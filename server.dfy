/**
 * The hostel server's store handlers over the disk state. Each handler
 * ensures its collection's file and reads the whole array; a submit or
 * delete handler then changes it and writes the whole array back. Every
 * file call is synchronous, so each handler runs to completion before
 * another starts. The disk is the pair of fields below.
 */
module Server {
  import opened Numerals
  import opened Records
  import opened Store

  class HostelServer {
    /** Whether the data folder exists. */
    var dataFolder: bool
    /** The collection files that exist, each with the records it holds. */
    var files: map<Collection, seq<Record>>

    /** The disk as a value. */
    function State(): Disk
      reads this
    {
      Disk(dataFolder, files)
    }

    /** A server over the disk as it is found at launch. */
    constructor (disk: Disk)
      requires Valid(disk)
      ensures State() == disk
    {
      dataFolder := disk.folder;
      files := disk.files;
    }

    /** `ensureFileExists`. */
    method EnsureFileExists(c: Collection)
      modifies this
      ensures State() == Ensure(old(State()), c)
    {
      if !dataFolder {
        dataFolder := true;
      }
      if c !in files {
        files := files[c := []];
      }
    }

    /**
     * Launch: ensure the four files in turn. Afterwards every collection has
     * a file, a file that existed keeps its records, and a new one is empty.
     */
    method Startup()
      modifies this
      ensures Valid(State())
      ensures forall c :: c in files && files[c] == Contents(old(State()), c)
    {
      for i := 0 to |AllCollections|
        invariant i > 0 ==> dataFolder
        invariant forall j | 0 <= j < i :: AllCollections[j] in files
        invariant forall c | c in old(files) :: c in files
        invariant forall c | c in files :: files[c] == Contents(old(State()), c)
        invariant !dataFolder ==> files == old(files)
      {
        ghost var before := State();
        EnsureFileExists(AllCollections[i]);
        forall c | c in files
          ensures files[c] == Contents(old(State()), c)
        {
          EnsureKeepsContents(before, AllCollections[i], c);
        }
      }
      forall c
        ensures c in files
      {
        assert c == AllCollections[match c case Attendance => 0 case Leave => 1 case Rooms => 2 case WardenMessages => 3];
      }
    }

    /** A list route (`/get-attendance` and the like): ensure the file and read all its records. */
    method List(c: Collection) returns (records: seq<Record>)
      modifies this
      ensures records == Contents(old(State()), c)
      ensures State() == Ensure(old(State()), c)
    {
      EnsureFileExists(c);
      records := files[c];
    }

    /** `/submit-attendance` and `/submit-leave`: push the submitted record onto the end of the file. */
    method AppendRecord(c: Collection, r: Record)
      modifies this
      ensures State() == Append(old(State()), c, r)
    {
      EnsureFileExists(c);
      var data := files[c];
      data := data + [r];
      files := files[c := data];
    }

    /** `/submit-room`: build the room record from the form and push it onto the end of the rooms file. */
    method SubmitRoom(body: Body)
      modifies this
      ensures State() == Append(old(State()), Rooms, RoomRecord(body))
    {
      EnsureFileExists(Rooms);
      var roomData := files[Rooms];
      var newRoom := BuildRoom(body);
      roomData := roomData + [newRoom];
      files := files[Rooms := roomData];
    }

    /**
     * `/delete-room/:index`: remove the room at the parsed position when it
     * is in range and report success; otherwise report failure and write
     * nothing.
     */
    method DeleteRoom(index: string) returns (ok: bool)
      modifies this
      ensures ok == ValidIndex(ParseInt(index), |Contents(old(State()), Rooms)|)
      ensures State() == DeleteAt(old(State()), Rooms, ParseInt(index))
    {
      EnsureFileExists(Rooms);
      var position := ParseInt(index);
      var roomData := files[Rooms];
      if position.Some? && position.value >= 0 && position.value < |roomData| {
        roomData := roomData[..position.value] + roomData[position.value + 1..];
        files := files[Rooms := roomData];
        ok := true;
      } else {
        ok := false;
      }
    }

    /** `/send-warden-message`: push the message, stamped with `date`, onto the end of the messages file. */
    method SendWardenMessage(body: Body, date: string)
      modifies this
      ensures State() == Append(old(State()), WardenMessages, WardenMessage(body, date))
    {
      EnsureFileExists(WardenMessages);
      var messages := files[WardenMessages];
      messages := messages + [WardenMessage(body, date)];
      files := files[WardenMessages := messages];
    }
  }
}
