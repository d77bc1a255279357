/**
 The day files: records are buffered, appended to the file of their UTC day and
 flushed once a minute; finished days are listed, posted and renamed.

 Files are sequences of whole records. The operating system is modelled far
 enough to see a rename of an open file: a descriptor follows its file.
 */
module Store {
  import opened Prelude

  /** Days are numbered; the program compares their YYYY-MM-DD form, which orders alike. */
  datatype Name = DayFile(day: int) | SentFile(day: int)

  datatype Line = HeaderLine(version: string) | RecordLine(record: string)

  /** The file the store has open, and what it has not written out yet. */
  datatype Opened = Opened(day: int, buffer: seq<Line>)

  /** Where the store's descriptor leads; Nowhere is a file that lost its last name. */
  datatype Descriptor = At(name: Name) | Nowhere

  datatype Post = Post(day: int, body: seq<Line>, asOf: int, accepted: bool)

  datatype Reading = Reading(day: int, body: seq<Line>)

  datatype World = World(
    files: map<Name, seq<Line>>, descriptor: Descriptor,
    header: string, current: Option<Opened>,
    asOf: int, listed: seq<int>, reading: Option<Reading>, posts: seq<Post>)

  function Boot(header: string): World { World(map[], Nowhere, header, None, 0, [], None, []) }

  // ----- the store's operations

  function Append(files: map<Name, seq<Line>>, d: Descriptor, lines: seq<Line>): map<Name, seq<Line>> {
    if d.At? && d.name in files then files[d.name := files[d.name] + lines] else files
  }

  function Close(w: World): World {
    if w.current.None? then w
    else w.(files := Append(w.files, w.descriptor, w.current.value.buffer), descriptor := Nowhere, current := None)
  }

  /** Makes day the current file; a new or empty file gets the header first. */
  function Open(w: World, day: int): World {
    if w.current.Some? && w.current.value.day == day then w
    else
      var closed := Close(w);
      var name := DayFile(day);
      var files := if name in closed.files then closed.files else closed.files[name := []];
      closed.(files := files, descriptor := At(name),
              current := Some(Opened(day, if files[name] == [] then [HeaderLine(w.header)] else [])))
  }

  /** Buffers a record of the open day; the buffer may spill its first lines to the file at any write. */
  function Put(w: World, record: string, spill: nat): World
    requires w.current.Some?
  {
    var buffer := w.current.value.buffer + [RecordLine(record)];
    var n := Min(spill, |buffer|);
    w.(files := Append(w.files, w.descriptor, buffer[..n]),
       current := Some(Opened(w.current.value.day, buffer[n..])))
  }

  function Write(w: World, day: int, record: string, spill: nat): World {
    Put(Open(w, day), record, spill)
  }

  function Flush(w: World, today: int): World {
    if w.current.None? then w
    else if w.current.value.day < today then Close(w)
    else w.(files := Append(w.files, w.descriptor, w.current.value.buffer),
            current := Some(w.current.value.(buffer := [])))
  }

  function CloseOver(w: World, today: int): World {
    if w.current.Some? && w.current.value.day < today then Close(w) else w
  }

  function DaysBefore(files: map<Name, seq<Line>>, today: int): set<int> {
    set name | name in files && name.DayFile? && name.day < today :: name.day
  }

  /** The unsent days before today, oldest first. */
  function List(w: World, today: int): World {
    var closed := CloseOver(w, today);
    closed.(asOf := today, listed := Sorted(DaysBefore(closed.files, today)), reading := None)
  }

  lemma DaysHaveFiles(files: map<Name, seq<Line>>, today: int, d: int)
    ensures d in DaysBefore(files, today) <==> DayFile(d) in files && d < today
  {
    if d in DaysBefore(files, today) {
      var name :| name in files && name.DayFile? && name.day < today && name.day == d;
      assert name == DayFile(d);
    }
    if DayFile(d) in files && d < today {
      assert DayFile(d).day in DaysBefore(files, today);
    }
  }

  function Sorted(days: set<int>): (s: seq<int>)
    ensures forall d :: d in s <==> d in days
    ensures forall i, j :: 0 <= i < j < |s| ==> s[i] < s[j]
  {
    if days == {} then []
    else
      var first := Least(days);
      [first] + Sorted(days - {first})
  }

  ghost predicate IsLeast(d: int, days: set<int>) {
    d in days && forall e :: e in days ==> d <= e
  }

  function Least(days: set<int>): (d: int)
    requires days != {}
    ensures d in days && forall e :: e in days ==> d <= e
  {
    assert exists d :: d in days && forall e :: e in days ==> d <= e by {
      var d := LeastExists(days);
    }
    var d :| d in days && forall e :: e in days ==> d <= e;
    d
  }

  lemma {:induction false} LeastExists(days: set<int>) returns (d: int)
    requires days != {}
    ensures IsLeast(d, days)
  {
    assert exists e :: e in days by {
      if forall e :: e !in days {
        assert false;
      }
    }
    d :| d in days;
    var rest := days - {d};
    if rest != {} {
      var least := LeastExists(rest);
      forall e | e in days
        ensures Min(d, least) <= e
      {
        assert e == d || e in rest;
      }
      d := Min(d, least);
    } else {
      assert days == {d};
    }
  }

  lemma SortedSingleton(d: int)
    ensures Sorted({d}) == [d]
  {
    assert {d} - {d} == {};
  }

  // ----- the uploader's operations

  /** Reads the next listed day's file. */
  function Take(w: World): World {
    if w.listed == [] then w
    else
      var name := DayFile(w.listed[0]);
      w.(listed := w.listed[1..],
         reading := if name in w.files then Some(Reading(w.listed[0], w.files[name])) else None)
  }

  /** The receiver's answer to the post of what was read; success renames the file. */
  function Answer(w: World, accepted: bool): World {
    if w.reading.None? then w
    else
      var r := w.reading.value;
      var posted := w.(reading := None, posts := w.posts + [Post(r.day, r.body, w.asOf, accepted)]);
      if accepted && DayFile(r.day) in w.files then Rename(posted, r.day) else posted
  }

  function Rename(w: World, day: int): World
    requires DayFile(day) in w.files
  {
    w.(files := (w.files - {DayFile(day)})[SentFile(day) := w.files[DayFile(day)]],
       descriptor := if w.descriptor == At(DayFile(day)) then At(SentFile(day))
                     else if w.descriptor == At(SentFile(day)) then Nowhere
                     else w.descriptor)
  }

  /** A new process: the buffer and the upload in progress are gone, the files remain. */
  function Crash(w: World, header: string): World {
    w.(descriptor := Nowhere, current := None, header := header, listed := [], reading := None)
  }

  // ----- the objects

  /** The directory, and where the store's descriptor leads. */
  class Disk {
    var files: map<Name, seq<Line>>
    var descriptor: Descriptor

    constructor ()
      ensures files == map[] && descriptor == Nowhere
    {
      files, descriptor := map[], Nowhere;
    }

    /** Opens a file for appending, creating it empty if need be. */
    method OpenAppend(name: Name) returns (size: nat)
      modifies this
      ensures files == (if name in old(files) then old(files) else old(files)[name := []])
      ensures descriptor == At(name) && size == |files[name]|
    {
      if name !in files {
        files := files[name := []];
      }
      descriptor := At(name);
      size := |files[name]|;
    }

    method AppendLines(lines: seq<Line>)
      modifies this`files
      ensures files == Append(old(files), descriptor, lines)
    {
      if descriptor.At? && descriptor.name in files {
        files := files[descriptor.name := files[descriptor.name] + lines];
      }
    }

    /** A descriptor follows its file; an overwritten file loses its last name. */
    method RenameToSent(day: int)
      requires DayFile(day) in files
      modifies this
      ensures files == (old(files) - {DayFile(day)})[SentFile(day) := old(files)[DayFile(day)]]
      ensures descriptor == if old(descriptor) == At(DayFile(day)) then At(SentFile(day))
                            else if old(descriptor) == At(SentFile(day)) then Nowhere else old(descriptor)
    {
      files := (files - {DayFile(day)})[SentFile(day) := files[DayFile(day)]];
      if descriptor == At(DayFile(day)) {
        descriptor := At(SentFile(day));
      } else if descriptor == At(SentFile(day)) {
        descriptor := Nowhere;
      }
    }
  }

  class DayStore {
    const disk: Disk
    const header: string
    var current: Option<Opened>

    /** The world with no upload under way. */
    function View(): World
      reads this, disk
    {
      World(disk.files, disk.descriptor, header, current, 0, [], None, [])
    }

    /** The world in the middle of uploading the days in listed. */
    function Uploading(today: int, listed: seq<int>, posts: seq<Post>): World
      reads this, disk
    {
      View().(asOf := today, listed := listed, posts := posts)
    }

    constructor (disk: Disk, header: string)
      ensures this.disk == disk && this.header == header && current.None?
    {
      this.disk, this.header, current := disk, header, None;
    }

    method CloseLocked()
      modifies this, disk
      ensures View() == Close(old(View()))
    {
      if current.None? {
        return;
      }
      disk.AppendLines(current.value.buffer);
      disk.descriptor := Nowhere;
      current := None;
    }

    method OpenDayFile(day: int)
      modifies this, disk
      ensures View() == Open(old(View()), day) && current.Some?
    {
      if current.Some? && current.value.day == day {
        return;
      }
      CloseLocked();
      var size := disk.OpenAppend(DayFile(day));
      current := Some(Opened(day, if size == 0 then [HeaderLine(header)] else []));
    }

    method WriteRecord(day: int, record: string, spill: nat)
      modifies this, disk
      ensures View() == Write(old(View()), day, record, spill)
    {
      OpenDayFile(day);
      var buffer := current.value.buffer + [RecordLine(record)];
      var n := Min(spill, |buffer|);
      disk.AppendLines(buffer[..n]);
      current := Some(Opened(current.value.day, buffer[n..]));
    }

    method FlushBuffer(today: int)
      modifies this, disk
      ensures View() == Flush(old(View()), today)
    {
      if current.None? {
        return;
      }
      if current.value.day < today {
        CloseLocked();
        return;
      }
      disk.AppendLines(current.value.buffer);
      current := Some(current.value.(buffer := []));
    }

    method Finished(today: int) returns (days: seq<int>)
      modifies this, disk
      ensures View() == CloseOver(old(View()), today)
      ensures days == List(old(View()), today).listed
      ensures forall d :: d in days <==> d < today && DayFile(d) in disk.files
      ensures forall i, j :: 0 <= i < j < |days| ==> days[i] < days[j]
    {
      if current.Some? && current.value.day < today {
        CloseLocked();
      }
      days := Sorted(DaysBefore(disk.files, today));
      forall d
        ensures d in days <==> d < today && DayFile(d) in disk.files
      {
        DaysHaveFiles(disk.files, today, d);
      }
    }

    /** Posts one day's file; success renames it. A file that cannot be read is not posted. */
    method UploadDay(day: int, today: int, accepted: bool, ghost later: seq<int>, ghost posts: seq<Post>)
      returns (ok: bool, post: seq<Post>)
      modifies disk
      ensures Uploading(today, later, posts + post) == Answer(Take(old(Uploading(today, [day] + later, posts))), accepted)
      ensures ok <==> DayFile(day) in old(disk.files) && accepted
    {
      assert ([day] + later)[1..] == later;
      if DayFile(day) !in disk.files {
        assert posts + [] == posts;
        return false, [];
      }
      post := [Post(day, disk.files[DayFile(day)], today, accepted)];
      if accepted {
        disk.RenameToSent(day);
      }
      ok := accepted;
    }

    /** Posts the finished days until cancelled; left are the ones not reached. */
    method UploadPending(today: int, replies: nat -> Reply)
      returns (allOK: bool, posts: seq<Post>, ghost left: seq<int>)
      modifies this, disk
      ensures UploadAll(List(old(View()), today), replies, 0) == Uploading(today, left, posts)
      ensures allOK <==> Succeeds(List(old(View()), today), replies, 0)
    {
      var days := Finished(today);
      ghost var start := List(old(View()), today);
      posts, allOK, left := [], true, days;
      assert days[0..] == days;
      for i := 0 to |days|
        invariant left == days[i..]
        invariant UploadAll(Uploading(today, left, posts), replies, i) == UploadAll(start, replies, 0)
        invariant Succeeds(start, replies, 0) <==> allOK && Succeeds(Uploading(today, left, posts), replies, i)
      {
        var day := days[i];
        left := days[i + 1..];
        assert days[i..] == [day] + left && days[i..][1..] == left;
        var ok, post := UploadDay(day, today, replies(i).accepted, left, posts);
        posts := posts + post;
        if replies(i).cancelled {
          return false, posts, left;
        }
        allOK := allOK && ok;
      }
    }
  }

  /** What the receiver answers to one post, and whether the upload was cancelled by then. */
  datatype Reply = Reply(accepted: bool, cancelled: bool)

  /** The listed days posted one after the other; n posts were tried before. */
  function UploadAll(w: World, replies: nat -> Reply, n: nat): World
    decreases |w.listed|
  {
    if w.listed == [] then w
    else
      var posted := Answer(Take(w), replies(n).accepted);
      if replies(n).cancelled then posted else UploadAll(posted, replies, n + 1)
  }

  predicate Succeeds(w: World, replies: nat -> Reply, n: nat)
    decreases |w.listed|
  {
    w.listed == [] ||
    (!replies(n).cancelled && replies(n).accepted && DayFile(w.listed[0]) in w.files
     && Succeeds(Answer(Take(w), true), replies, n + 1))
  }

  /** The days are different and have their files. */
  predicate Ready(files: map<Name, seq<Line>>, days: seq<int>) {
    days == [] || (DayFile(days[0]) in files && days[0] !in days[1..] && Ready(files, days[1..]))
  }

  lemma {:induction false} ListIsReady(files: map<Name, seq<Line>>, days: seq<int>)
    requires forall i :: 0 <= i < |days| ==> DayFile(days[i]) in files
    requires forall i, j :: 0 <= i < j < |days| ==> days[i] != days[j]
    ensures Ready(files, days)
  {
    if days != [] {
      var rest := days[1..];
      assert forall i :: 0 <= i < |rest| ==> rest[i] == days[i + 1];
      ListIsReady(files, rest);
    }
  }

  lemma {:induction false} ReadyAfterRename(files: map<Name, seq<Line>>, days: seq<int>, day: int)
    requires Ready(files, days) && day !in days && DayFile(day) in files
    ensures Ready((files - {DayFile(day)})[SentFile(day) := files[DayFile(day)]], days)
  {
    if days != [] {
      ReadyAfterRename(files, days[1..], day);
    }
  }

  /** The posts of an upload nothing interferes with: the files as they are, in order, up to a cancellation. */
  function PostsOf(files: map<Name, seq<Line>>, days: seq<int>, asOf: int, replies: nat -> Reply, n: nat): seq<Post>
    requires Ready(files, days)
  {
    if days == [] then []
    else
      [Post(days[0], files[DayFile(days[0])], asOf, replies(n).accepted)]
      + if replies(n).cancelled then [] else PostsOf(files, days[1..], asOf, replies, n + 1)
  }

  lemma {:induction false} PostsAfterRename(files: map<Name, seq<Line>>, days: seq<int>, day: int, asOf: int,
                                            replies: nat -> Reply, n: nat)
    requires Ready(files, days) && day !in days && DayFile(day) in files
    ensures var renamed := (files - {DayFile(day)})[SentFile(day) := files[DayFile(day)]];
            Ready(renamed, days) && PostsOf(renamed, days, asOf, replies, n) == PostsOf(files, days, asOf, replies, n)
  {
    ReadyAfterRename(files, days, day);
    if days != [] {
      PostsAfterRename(files, days[1..], day, asOf, replies, n + 1);
    }
  }

  /** It posts exactly the listed days, each once. */
  lemma {:induction false} UploadPostsEachDay(w: World, replies: nat -> Reply, n: nat)
    requires Ready(w.files, w.listed)
    ensures UploadAll(w, replies, n).posts == w.posts + PostsOf(w.files, w.listed, w.asOf, replies, n)
    decreases |w.listed|
  {
    if w.listed == [] {
      assert w.posts + [] == w.posts;
    } else {
      var day, rest := w.listed[0], w.listed[1..];
      var posted := Answer(Take(w), replies(n).accepted);
      var post := Post(day, w.files[DayFile(day)], w.asOf, replies(n).accepted);
      if replies(n).accepted {
        PostsAfterRename(w.files, rest, day, w.asOf, replies, n + 1);
      }
      UploadPostsEachDay(posted, replies, n + 1);
      assert w.posts + ([post] + PostsOf(w.files, rest, w.asOf, replies, n + 1))
          == (w.posts + [post]) + PostsOf(w.files, rest, w.asOf, replies, n + 1);
    }
  }

  /** It succeeds just when every post was accepted and none cancelled. */
  lemma {:induction false} UploadSucceeds(w: World, replies: nat -> Reply, n: nat)
    requires Ready(w.files, w.listed)
    ensures Succeeds(w, replies, n) <==> forall k :: n <= k < n + |w.listed| ==> replies(k) == Reply(true, false)
    decreases |w.listed|
  {
    if w.listed != [] {
      ReadyAfterRename(w.files, w.listed[1..], w.listed[0]);
      UploadSucceeds(Answer(Take(w), true), replies, n + 1);
    }
  }

  /** What it posts it renames, and nothing else. */
  lemma {:induction false} UploadSends(w: World, replies: nat -> Reply, n: nat, d: int)
    requires Ready(w.files, w.listed) && Succeeds(w, replies, n)
    ensures var after := UploadAll(w, replies, n);
            if d in w.listed then
              DayFile(d) in w.files && DayFile(d) !in after.files && SentFile(d) in after.files
              && after.files[SentFile(d)] == w.files[DayFile(d)]
            else
              (DayFile(d) in after.files <==> DayFile(d) in w.files)
              && (SentFile(d) in after.files <==> SentFile(d) in w.files)
              && (SentFile(d) in w.files ==> after.files[SentFile(d)] == w.files[SentFile(d)])
    decreases |w.listed|
  {
    if w.listed != [] {
      var day, rest := w.listed[0], w.listed[1..];
      assert w.listed == [day] + rest;
      ReadyAfterRename(w.files, rest, day);
      UploadSends(Answer(Take(w), true), replies, n + 1, d);
      if d in rest {
        ReadyHas(w.files, rest, d);
      }
    }
  }

  lemma {:induction false} ReadyHas(files: map<Name, seq<Line>>, days: seq<int>, d: int)
    requires Ready(files, days) && d in days
    ensures DayFile(d) in files
  {
    if d != days[0] {
      ReadyHas(files, days[1..], d);
    }
  }

  lemma ListedHaveFiles(w: World, today: int)
    ensures var after := List(w, today); Ready(after.files, after.listed)
  {
    var after := List(w, today);
    forall i | 0 <= i < |after.listed|
      ensures DayFile(after.listed[i]) in after.files
    {
      assert after.listed[i] in after.listed;
      DaysHaveFiles(after.files, today, after.listed[i]);
    }
    ListIsReady(after.files, after.listed);
  }
}
