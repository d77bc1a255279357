/**
 Every run of the store and its uploader: writes, flushes, listings, posts,
 answers and crashes in any order, records that arrive late included.
 */
module StoreHistory {
  import opened Prelude
  import opened Store

  datatype Step =
    | DoWrite(day: int, record: string, spill: nat)
    | DoFlush(today: int)
    | DoClose
    | DoList(today: int)
    | DoTake
    | DoAnswer(accepted: bool)
    | DoCrash(header: string)

  function Next(w: World, step: Step): World {
    match step
    case DoWrite(day, record, spill) => Write(w, day, record, spill)
    case DoFlush(today) => Flush(w, today)
    case DoClose => Close(w)
    case DoList(today) => List(w, today)
    case DoTake => Take(w)
    case DoAnswer(accepted) => Answer(w, accepted)
    case DoCrash(header) => Crash(w, header)
  }

  datatype Run = Booted(header: string) | Then(past: Run, step: Step)

  function After(r: Run): World {
    match r
    case Booted(header) => Boot(header)
    case Then(past, step) => Next(After(past), step)
  }

  // ----- one header per file, in every run

  /** One header, as the first line. */
  ghost predicate Headed(lines: seq<Line>) {
    lines != [] ==> lines[0].HeaderLine? && forall i :: 1 <= i < |lines| ==> lines[i].RecordLine?
  }

  /** A file with what the store is about to append to it. */
  function Whole(w: World, name: Name): seq<Line>
    requires name in w.files
  {
    w.files[name] + if w.current.Some? && w.descriptor == At(name) then w.current.value.buffer else []
  }

  ghost predicate HeadersFine(w: World) {
    && (forall name :: name in w.files ==> Headed(Whole(w, name)))
    && (w.current.Some? && w.descriptor.At? ==>
          w.descriptor.name in w.files && Whole(w, w.descriptor.name) != [])
    && (w.current.None? ==> w.descriptor == Nowhere)
  }

  lemma CloseKeepsHeaders(w: World)
    requires HeadersFine(w)
    ensures HeadersFine(Close(w))
  {
    forall name | name in Close(w).files
      ensures Headed(Whole(Close(w), name))
    {
      assert Whole(Close(w), name) == Whole(w, name);
    }
  }

  lemma OpenKeepsHeaders(w: World, day: int)
    requires HeadersFine(w)
    ensures HeadersFine(Open(w, day))
  {
    CloseKeepsHeaders(w);
    if !(w.current.Some? && w.current.value.day == day) {
      var closed, open := Close(w), Open(w, day);
      forall name | name in open.files
        ensures Headed(Whole(open, name))
      {
        if name in closed.files {
          assert Headed(Whole(closed, name));
          assert Whole(closed, name) == closed.files[name];
        }
      }
    }
  }

  lemma PutKeepsHeaders(w: World, record: string, spill: nat)
    requires HeadersFine(w) && w.current.Some?
    ensures HeadersFine(Put(w, record, spill))
  {
    var after := Put(w, record, spill);
    forall name | name in after.files
      ensures Headed(Whole(after, name))
      ensures after.descriptor == At(name) ==> Whole(after, name) != []
    {
      PutWhole(w, record, spill, name);
      assert Headed(Whole(w, name));
    }
  }

  lemma PutWhole(w: World, record: string, spill: nat, name: Name)
    requires w.current.Some? && name in w.files
    ensures var after := Put(w, record, spill);
            Whole(after, name) == Whole(w, name) + if w.descriptor == At(name) then [RecordLine(record)] else []
  {
    var buffer := w.current.value.buffer + [RecordLine(record)];
    var n := Min(spill, |buffer|);
    assert buffer == buffer[..n] + buffer[n..];
  }

  lemma FlushKeepsHeaders(w: World, today: int)
    requires HeadersFine(w)
    ensures HeadersFine(Flush(w, today))
  {
    CloseKeepsHeaders(w);
    var after := Flush(w, today);
    forall name | name in after.files
      ensures Headed(Whole(after, name))
    {
      assert Whole(after, name) == Whole(w, name);
    }
  }

  lemma AnswerKeepsHeaders(w: World, accepted: bool)
    requires HeadersFine(w)
    ensures HeadersFine(Answer(w, accepted))
  {
    var after := Answer(w, accepted);
    forall name | name in after.files
      ensures Headed(Whole(after, name))
    {
      if accepted && w.reading.Some? && DayFile(w.reading.value.day) in w.files
         && name == SentFile(w.reading.value.day) {
        assert Whole(after, name) == Whole(w, DayFile(w.reading.value.day));
      } else {
        assert Whole(after, name) == Whole(w, name);
      }
    }
  }

  lemma CrashKeepsHeaders(w: World, header: string)
    requires HeadersFine(w)
    ensures HeadersFine(Crash(w, header))
  {
    var after := Crash(w, header);
    forall name | name in after.files
      ensures Headed(Whole(after, name))
    {
      assert Headed(Whole(w, name));
      assert w.files[name] <= Whole(w, name);
    }
  }

  lemma {:induction false} HeadersStayFine(r: Run)
    ensures HeadersFine(After(r))
  {
    if r.Then? {
      HeadersStayFine(r.past);
      var w := After(r.past);
      match r.step
      case DoWrite(day, record, spill) =>
        OpenKeepsHeaders(w, day);
        PutKeepsHeaders(Open(w, day), record, spill);
      case DoFlush(today) => FlushKeepsHeaders(w, today);
      case DoClose => CloseKeepsHeaders(w);
      case DoList(today) =>
        CloseKeepsHeaders(w);
        assert forall name :: name in CloseOver(w, today).files ==> Whole(After(r), name) == Whole(CloseOver(w, today), name);
      case DoTake => assert forall name :: name in w.files ==> Whole(After(r), name) == Whole(w, name);
      case DoAnswer(accepted) => AnswerKeepsHeaders(w, accepted);
      case DoCrash(header) => CrashKeepsHeaders(w, header);
    }
  }

  /** Every file of every run, late records and crashes included: empty, or one header and then records. */
  lemma OneHeaderFirst(r: Run, name: Name)
    requires name in After(r).files
    ensures Headed(After(r).files[name])
  {
    HeadersStayFine(r);
    assert After(r).files[name] <= Whole(After(r), name);
  }

  // ----- a day's latest file

  /** A sent day may get a new file; the latest is then the new one. */
  function NameOf(w: World, d: int): Name {
    if DayFile(d) in w.files then DayFile(d) else SentFile(d)
  }

  predicate HasFile(w: World, d: int) { DayFile(d) in w.files || SentFile(d) in w.files }

  function FileOf(w: World, d: int): seq<Line> {
    if NameOf(w, d) in w.files then w.files[NameOf(w, d)] else []
  }

  predicate IsOpen(w: World, d: int) { w.current.Some? && w.current.value.day == d }

  function Buffered(w: World, d: int): seq<Line> {
    if IsOpen(w, d) then w.current.value.buffer else []
  }

  /** Day d's latest file with what is still buffered for it. */
  function WholeOf(w: World, d: int): seq<Line> {
    FileOf(w, d) + Buffered(w, d)
  }

  /** A record for day d now starts a new file. */
  predicate Creates(w: World, d: int) {
    !IsOpen(w, d) && DayFile(d) !in w.files
  }

  /** The store's descriptor leads to the latest file of its day. */
  ghost predicate StoreSound(w: World) {
    w.current.Some? ==>
      var d := w.current.value.day;
      w.descriptor == At(NameOf(w, d)) && HasFile(w, d) && WholeOf(w, d) != []
  }

  lemma CloseIsSound(w: World)
    requires StoreSound(w)
    ensures Close(w).files.Keys == w.files.Keys
    ensures forall d :: FileOf(Close(w), d) == WholeOf(Close(w), d) == WholeOf(w, d)
  {
  }

  lemma OpenIsSound(w: World, day: int)
    requires StoreSound(w)
    ensures StoreSound(Open(w, day)) && IsOpen(Open(w, day), day)
    ensures Open(w, day).files.Keys == w.files.Keys + if Creates(w, day) then {DayFile(day)} else {}
    ensures forall d :: WholeOf(Open(w, day), d) ==
              if d == day && (Creates(w, day) || WholeOf(w, d) == []) then [HeaderLine(w.header)] else WholeOf(w, d)
  {
    CloseIsSound(w);
  }

  lemma PutIsSound(w: World, record: string, spill: nat)
    requires StoreSound(w) && w.current.Some?
    ensures StoreSound(Put(w, record, spill)) && Put(w, record, spill).files.Keys == w.files.Keys
    ensures forall d :: FileOf(w, d) <= FileOf(Put(w, record, spill), d)
    ensures forall d :: WholeOf(Put(w, record, spill), d) ==
              WholeOf(w, d) + if IsOpen(w, d) then [RecordLine(record)] else []
  {
    PutWhole(w, record, spill, w.descriptor.name);
  }

  lemma FlushIsSound(w: World, today: int)
    requires StoreSound(w)
    ensures StoreSound(Flush(w, today)) && Flush(w, today).files.Keys == w.files.Keys
    ensures forall d :: FileOf(Flush(w, today), d) == WholeOf(Flush(w, today), d) == WholeOf(w, d)
  {
    CloseIsSound(w);
  }

  lemma ListIsSound(w: World, today: int)
    requires StoreSound(w)
    ensures StoreSound(List(w, today)) && List(w, today).files.Keys == w.files.Keys
    ensures forall d :: FileOf(w, d) <= FileOf(List(w, today), d) && WholeOf(List(w, today), d) == WholeOf(w, d)
    ensures w.current.Some? && w.current.value.day < today ==> forall d :: FileOf(List(w, today), d) == WholeOf(w, d)
  {
    CloseIsSound(w);
  }

  /** A rename moves the file the descriptor leads to along with it. */
  lemma AnswerIsSound(w: World, accepted: bool)
    requires StoreSound(w)
    ensures StoreSound(Answer(w, accepted))
    ensures forall d :: FileOf(Answer(w, accepted), d) == FileOf(w, d) && WholeOf(Answer(w, accepted), d) == WholeOf(w, d)
  {
  }

  lemma {:induction false} RunIsSound(r: Run)
    ensures StoreSound(After(r))
  {
    if r.Then? {
      RunIsSound(r.past);
      var w := After(r.past);
      match r.step
      case DoWrite(day, record, spill) =>
        OpenIsSound(w, day);
        PutIsSound(Open(w, day), record, spill);
      case DoFlush(today) => FlushIsSound(w, today);
      case DoClose => CloseIsSound(w);
      case DoList(today) => ListIsSound(w, today);
      case DoTake =>
      case DoAnswer(accepted) => AnswerIsSound(w, accepted);
      case DoCrash(header) =>
    }
  }

  /**
   What one step does to a day's lines: only a record of that day adds, only a
   crash takes away, and only a record for a day without a file of its own, or
   with an empty one, starts afresh with a header.
   */
  lemma StepWhole(r: Run, d: int)
    requires r.Then?
    ensures var w, w' := After(r.past), After(r);
            WholeOf(w', d) ==
            if r.step.DoCrash? then FileOf(w, d)
            else if r.step.DoWrite? && r.step.day == d then
              (if Creates(w, d) || WholeOf(w, d) == [] then [HeaderLine(w.header)] else WholeOf(w, d))
              + [RecordLine(r.step.record)]
            else WholeOf(w, d)
  {
    RunIsSound(r.past);
    var w := After(r.past);
    match r.step
    case DoWrite(day, record, spill) =>
      OpenIsSound(w, day);
      PutIsSound(Open(w, day), record, spill);
    case DoFlush(today) => FlushIsSound(w, today);
    case DoClose => CloseIsSound(w);
    case DoList(today) => ListIsSound(w, today);
    case DoTake =>
    case DoAnswer(accepted) => AnswerIsSound(w, accepted);
    case DoCrash(header) =>
  }

  /** Which files one step makes or renames. */
  lemma StepNames(r: Run, d: int)
    requires r.Then?
    ensures var w, w' := After(r.past), After(r);
            && (DayFile(d) in w'.files <==>
                if Writes(r.step, d) then DayFile(d) in w.files || Creates(w, d)
                else DayFile(d) in w.files && !Renames(w, r.step, d))
            && (SentFile(d) in w'.files <==> SentFile(d) in w.files || Renames(w, r.step, d))
  {
    RunIsSound(r.past);
    var w := After(r.past);
    match r.step
    case DoWrite(day, record, spill) =>
      OpenIsSound(w, day);
      PutIsSound(Open(w, day), record, spill);
    case DoFlush(today) => FlushIsSound(w, today);
    case DoClose => CloseIsSound(w);
    case DoList(today) => ListIsSound(w, today);
    case _ =>
  }

  predicate Renames(w: World, step: Step, d: int) {
    step == DoAnswer(true) && w.reading.Some? && w.reading.value.day == d && DayFile(d) in w.files
  }

  predicate Writes(step: Step, d: int) { step.DoWrite? && step.day == d }

  // ----- what was written

  /** Every record ever written for day d, in order. */
  function Written(r: Run, d: int): seq<Line> {
    match r
    case Booted(_) => []
    case Then(past, DoWrite(day, record, _)) => Written(past, d) + if day == d then [RecordLine(record)] else []
    case Then(past, _) => Written(past, d)
  }

  ghost predicate Uninterrupted(r: Run) {
    r.Then? ==> Uninterrupted(r.past) && !r.step.DoCrash?
  }

  function FirstHeader(r: Run): string {
    match r
    case Booted(header) => header
    case Then(past, _) => FirstHeader(past)
  }

  lemma {:induction false} HeaderIsFirst(r: Run)
    requires Uninterrupted(r)
    ensures After(r).header == FirstHeader(r)
  {
    if r.Then? {
      HeaderIsFirst(r.past);
    }
  }

  /** The records written to d's latest file. */
  function Latest(r: Run, d: int): seq<Line> {
    match r
    case Booted(_) => []
    case Then(past, DoWrite(day, record, _)) =>
      if day != d then Latest(past, d)
      else (if Creates(After(past), d) then [] else Latest(past, d)) + [RecordLine(record)]
    case Then(past, _) => Latest(past, d)
  }

  /** Without a crash, a day's latest file and its buffer are the header and the records written to it, in order. */
  lemma {:induction false} WholeIsWritten(r: Run, d: int)
    requires Uninterrupted(r)
    ensures WholeOf(After(r), d) ==
            if Latest(r, d) == [] then [] else [HeaderLine(FirstHeader(r))] + Latest(r, d)
  {
    if r.Then? {
      WholeIsWritten(r.past, d);
      StepWhole(r, d);
      HeaderIsFirst(r.past);
    }
  }

  /** The latest file got the last of a day's records, and all of them just when no file of that day was sent before. */
  lemma {:induction false} LatestIsEnd(r: Run, d: int)
    ensures var w, n := After(r), |Written(r, d)| - |Latest(r, d)|;
            && 0 <= n && Latest(r, d) == Written(r, d)[n..]
            && (HasFile(w, d) <==> Latest(r, d) != [])
            && (DayFile(d) in w.files ==> (n == 0 <==> SentFile(d) !in w.files))
            && (!HasFile(w, d) ==> Written(r, d) == [])
  {
    if r.Then? {
      LatestIsEnd(r.past, d);
      StepNames(r, d);
      RunIsSound(r.past);
    }
  }

  // ----- what is read and posted

  /** The run as it was when what is being posted was read. */
  function ReadAt(r: Run): Run {
    match r
    case Booted(_) => r
    case Then(past, DoTake) => if After(past).listed != [] then past else ReadAt(past)
    case Then(past, _) => ReadAt(past)
  }

  /** The run as it was when the i-th post was read. */
  function PostedFrom(r: Run, i: nat): Run {
    match r
    case Booted(_) => r
    case Then(past, DoAnswer(_)) =>
      if After(past).reading.Some? && i == |After(past).posts| then ReadAt(past) else PostedFrom(past, i)
    case Then(past, _) => PostedFrom(past, i)
  }

  /** r goes on from t. */
  ghost predicate Extends(r: Run, t: Run) {
    r == t || (r.Then? && Extends(r.past, t))
  }

  lemma {:induction false} WrittenGrows(r: Run, t: Run, d: int)
    requires Extends(r, t)
    ensures Written(t, d) <= Written(r, d)
    ensures Uninterrupted(r) ==> Uninterrupted(t) && FirstHeader(t) == FirstHeader(r)
  {
    if r != t {
      WrittenGrows(r.past, t, d);
    }
  }

  /** body is the file of the day listed first when t was reached. */
  ghost predicate ReadFrom(t: Run, d: int, body: seq<Line>) {
    var w := After(t);
    w.listed != [] && w.listed[0] == d && DayFile(d) in w.files && body == FileOf(w, d)
  }

  lemma {:induction false} ReadingIsRead(r: Run)
    requires After(r).reading.Some?
    ensures Extends(r, ReadAt(r)) && ReadFrom(ReadAt(r), After(r).reading.value.day, After(r).reading.value.body)
  {
    if !(r.step.DoTake? && After(r.past).listed != []) {
      ReadingIsRead(r.past);
    }
  }

  lemma {:induction false} PostIsRead(r: Run, i: nat)
    requires i < |After(r).posts|
    ensures Extends(r, PostedFrom(r, i))
    ensures ReadFrom(PostedFrom(r, i), After(r).posts[i].day, After(r).posts[i].body)
  {
    if i < |After(r.past).posts| {
      PostIsRead(r.past, i);
    } else {
      ReadingIsRead(r.past);
    }
  }

  lemma ReadIsWholeIff(r: Run, t: Run, d: int, body: seq<Line>)
    requires Uninterrupted(r) && Extends(r, t) && ReadFrom(t, d, body)
    ensures body == [HeaderLine(FirstHeader(r))] + Written(r, d) <==>
            && SentFile(d) !in After(t).files
            && Buffered(After(t), d) == []
            && Written(r, d) == Written(t, d)
  {
    WrittenGrows(r, t, d);
    WholeIsWritten(t, d);
    LatestIsEnd(t, d);
    var whole := WholeOf(After(t), d);
    assert |body| + |Buffered(After(t), d)| == |whole| == 1 + |Latest(t, d)|;
  }

  /**
   Late records included, a post is the header and exactly all of its day's
   records, those written since included, if and only if at the moment it was
   read no file of that day had been sent and no record of it was buffered, and
   none was written since.
   */
  lemma PostIsWholeIff(r: Run, i: nat)
    requires Uninterrupted(r) && i < |After(r).posts|
    ensures var p, t := After(r).posts[i], PostedFrom(r, i);
            p.body == [HeaderLine(FirstHeader(r))] + Written(r, p.day) <==>
            && SentFile(p.day) !in After(t).files
            && Buffered(After(t), p.day) == []
            && Written(r, p.day) == Written(t, p.day)
  {
    PostIsRead(r, i);
    var p := After(r).posts[i];
    ReadIsWholeIff(r, PostedFrom(r, i), p.day, p.body);
  }

  /** The same for what is about to be posted. */
  lemma ReadingIsWholeIff(r: Run)
    requires Uninterrupted(r) && After(r).reading.Some?
    ensures var p, t := After(r).reading.value, ReadAt(r);
            p.body == [HeaderLine(FirstHeader(r))] + Written(r, p.day) <==>
            && SentFile(p.day) !in After(t).files
            && Buffered(After(t), p.day) == []
            && Written(r, p.day) == Written(t, p.day)
  {
    ReadingIsRead(r);
    var p := After(r).reading.value;
    ReadIsWholeIff(r, ReadAt(r), p.day, p.body);
  }

  // ----- which days are posted

  /** The days any listing so far contained. */
  function Listed(r: Run): set<int> {
    match r
    case Booted(_) => {}
    case Then(past, DoList(today)) => Listed(past) + DaysBefore(After(past).files, today)
    case Then(past, _) => Listed(past)
  }

  /** The uploader works on listed, past days that have their files; what was accepted was renamed. */
  ghost predicate UploaderSound(w: World, listed: set<int>) {
    && (forall i :: 0 <= i < |w.listed| ==>
          w.listed[i] in listed && w.listed[i] < w.asOf && DayFile(w.listed[i]) in w.files)
    && (forall i, j :: 0 <= i < j < |w.listed| ==> w.listed[i] < w.listed[j])
    && (w.reading.Some? ==>
        var d := w.reading.value.day;
        && d in listed && d < w.asOf && DayFile(d) in w.files
        && forall i :: 0 <= i < |w.listed| ==> d < w.listed[i])
    && (forall i :: 0 <= i < |w.posts| ==> PostSound(w, listed, w.posts[i]))
    && (forall d :: SentFile(d) in w.files ==> d in listed)
  }

  ghost predicate PostSound(w: World, listed: set<int>, p: Post) {
    p.day in listed && p.day < p.asOf && (p.accepted ==> SentFile(p.day) in w.files)
  }

  lemma UploaderStaysSound(w: World, w': World, listed: set<int>)
    requires UploaderSound(w, listed)
    requires w'.listed == w.listed && w'.asOf == w.asOf && w'.reading == w.reading && w'.posts == w.posts
    requires forall d :: DayFile(d) in w.files ==> DayFile(d) in w'.files
    requires forall d :: SentFile(d) in w'.files <==> SentFile(d) in w.files
    ensures UploaderSound(w', listed)
  {
    forall i | 0 <= i < |w'.posts|
      ensures PostSound(w', listed, w'.posts[i])
    {
      assert PostSound(w, listed, w.posts[i]);
    }
  }

  lemma ListKeepsUploader(w: World, listed: set<int>, today: int)
    requires StoreSound(w) && UploaderSound(w, listed)
    ensures UploaderSound(List(w, today), listed + DaysBefore(w.files, today))
  {
    var more := listed + DaysBefore(w.files, today);
    CloseIsSound(w);
    var closed, after := CloseOver(w, today), List(w, today);
    assert DaysBefore(closed.files, today) == DaysBefore(w.files, today);
    forall i | 0 <= i < |after.listed|
      ensures after.listed[i] in more && after.listed[i] < today && DayFile(after.listed[i]) in after.files
    {
      assert after.listed[i] in after.listed;
      DaysHaveFiles(closed.files, today, after.listed[i]);
    }
    forall i | 0 <= i < |after.posts|
      ensures PostSound(after, more, after.posts[i])
    {
      assert PostSound(w, listed, w.posts[i]);
    }
  }

  lemma AnswerKeepsUploader(w: World, listed: set<int>, accepted: bool)
    requires UploaderSound(w, listed)
    ensures UploaderSound(Answer(w, accepted), listed)
  {
    var after := Answer(w, accepted);
    forall i | 0 <= i < |after.posts|
      ensures PostSound(after, listed, after.posts[i])
    {
      if i < |w.posts| {
        assert PostSound(w, listed, w.posts[i]);
      }
    }
  }

  lemma {:induction false} UploaderIsSound(r: Run)
    ensures UploaderSound(After(r), Listed(r))
  {
    if r.Then? {
      UploaderIsSound(r.past);
      RunIsSound(r.past);
      var w, listed := After(r.past), Listed(r.past);
      match r.step
      case DoList(today) => ListKeepsUploader(w, listed, today);
      case DoTake => TakeKeepsUploader(w, listed);
      case DoAnswer(accepted) => AnswerKeepsUploader(w, listed, accepted);
      case DoCrash(header) =>
        forall i | 0 <= i < |w.posts|
          ensures PostSound(After(r), listed, w.posts[i])
        {
          assert PostSound(w, listed, w.posts[i]);
        }
      case _ =>
        forall d
          ensures DayFile(d) in w.files ==> DayFile(d) in After(r).files
          ensures SentFile(d) in After(r).files <==> SentFile(d) in w.files
        {
          StepNames(r, d);
        }
        UploaderStaysSound(w, After(r), listed);
    }
  }

  lemma TakeKeepsUploader(w: World, listed: set<int>)
    requires UploaderSound(w, listed)
    ensures UploaderSound(Take(w), listed)
  {
    forall i | 0 <= i < |w.posts|
      ensures PostSound(Take(w), listed, w.posts[i])
    {
      assert PostSound(w, listed, w.posts[i]);
    }
  }

  /** A record of d came when a file of d was sent, none was there and none open. */
  predicate Recreated(r: Run, d: int) {
    match r
    case Booted(_) => false
    case Then(past, step) =>
      Recreated(past, d) || (Writes(step, d) && SentFile(d) in After(past).files && Creates(After(past), d))
  }

  /** The same, since d was last sent. */
  predicate RecreatedSince(r: Run, d: int) {
    match r
    case Booted(_) => false
    case Then(past, step) =>
      if Renames(After(past), step, d) then false
      else RecreatedSince(past, d) || (Writes(step, d) && SentFile(d) in After(past).files && Creates(After(past), d))
  }

  lemma {:induction false} SentDayHasFileIff(r: Run, d: int)
    requires SentFile(d) in After(r).files
    ensures DayFile(d) in After(r).files <==> RecreatedSince(r, d)
    ensures RecreatedSince(r, d) ==> Recreated(r, d)
  {
    StepNames(r, d);
    if SentFile(d) in After(r.past).files {
      SentDayHasFileIff(r.past, d);
    } else {
      NeverSent(r.past, d);
    }
  }

  lemma {:induction false} NeverSent(r: Run, d: int)
    requires SentFile(d) !in After(r).files
    ensures !Recreated(r, d) && !RecreatedSince(r, d)
  {
    if r.Then? {
      StepNames(r, d);
      NeverSent(r.past, d);
    }
  }

  /** A day sent before is listed for upload again if and only if a record has since started a new file. */
  lemma SentDayListedAgainIff(r: Run, d: int, today: int)
    requires SentFile(d) in After(r).files && d < today
    ensures d in After(Then(r, DoList(today))).listed <==> RecreatedSince(r, d)
  {
    var w := After(r);
    RunIsSound(r);
    CloseIsSound(w);
    DaysHaveFiles(CloseOver(w, today).files, today, d);
    SentDayHasFileIff(r, d);
  }

  /** A day once accepted is never posted again, unless a record started a new file after that. */
  lemma {:induction false} AcceptedOnce(r: Run, i: nat, j: nat)
    requires i < j < |After(r).posts| && After(r).posts[i].accepted
    requires !Recreated(r, After(r).posts[i].day)
    ensures After(r).posts[j].day != After(r).posts[i].day
  {
    var w, d := After(r.past), After(r).posts[i].day;
    if j < |w.posts| {
      AcceptedOnce(r.past, i, j);
    } else {
      UploaderIsSound(r.past);
      assert PostSound(w, Listed(r.past), w.posts[i]);
      SentDayHasFileIff(r.past, d);
    }
  }

  /** The day of the last write, until its file is closed. */
  function OpenDay(r: Run): Option<int> {
    match r
    case Booted(_) => None
    case Then(past, DoWrite(day, _, _)) => Some(day)
    case Then(past, DoFlush(today)) => UnlessOver(OpenDay(past), today)
    case Then(past, DoList(today)) => UnlessOver(OpenDay(past), today)
    case Then(past, DoClose) => None
    case Then(past, DoCrash(_)) => None
    case Then(past, _) => OpenDay(past)
  }

  function UnlessOver(day: Option<int>, today: int): Option<int> {
    if day.Some? && day.value < today then None else day
  }

  lemma {:induction false} OpenDayIsOpen(r: Run)
    ensures OpenDay(r) == if After(r).current.Some? then Some(After(r).current.value.day) else None
  {
    if r.Then? {
      OpenDayIsOpen(r.past);
    }
  }

  /** A record was written to d's latest file, which was not sent since. */
  predicate Unsent(r: Run, d: int) {
    match r
    case Booted(_) => false
    case Then(past, DoWrite(day, _, _)) => if day == d && OpenDay(past) != Some(d) then true else Unsent(past, d)
    case Then(past, DoAnswer(accepted)) =>
      Unsent(past, d) && !(accepted && After(past).reading.Some? && After(past).reading.value.day == d)
    case Then(past, _) => Unsent(past, d)
  }

  lemma {:induction false} UnsentHasFileIff(r: Run, d: int)
    ensures DayFile(d) in After(r).files <==> Unsent(r, d)
  {
    if r.Then? {
      UnsentHasFileIff(r.past, d);
      StepNames(r, d);
      OpenDayIsOpen(r.past);
    }
  }

  /** In every run a day is listed for upload if and only if it is over and its latest file was not sent. */
  lemma ListedIff(r: Run, d: int, today: int)
    ensures d in After(Then(r, DoList(today))).listed <==> d < today && Unsent(r, d)
  {
    var w := After(r);
    RunIsSound(r);
    CloseIsSound(w);
    DaysHaveFiles(CloseOver(w, today).files, today, d);
    UnsentHasFileIff(r, d);
  }

  /** A record makes its day one to be listed, unless it went into a file renamed while open. */
  lemma WrittenIsUnsent(r: Run, d: int, record: string, spill: nat)
    ensures Unsent(Then(r, DoWrite(d, record, spill)), d) <==> !IsOpen(After(r), d) || DayFile(d) in After(r).files
  {
    OpenDayIsOpen(r);
    UnsentHasFileIff(r, d);
  }

  /** An upload that is not interfered with, accepted and not cancelled leaves no unsent file of a day that is over. */
  lemma UploadClears(r: Run, today: int, replies: nat -> Reply, d: int)
    requires Succeeds(List(After(r), today), replies, 0) && d < today
    ensures var after := UploadAll(List(After(r), today), replies, 0);
            DayFile(d) !in after.files && (Unsent(r, d) ==> SentFile(d) in after.files && after.files[SentFile(d)] == WholeOf(After(r), d))
  {
    var w := List(After(r), today);
    ListedHaveFiles(After(r), today);
    ListedIff(r, d, today);
    UploadSends(w, replies, 0, d);
    RunIsSound(r);
    ListIsSound(After(r), today);
    DaysHaveFiles(w.files, today, d);
    if Unsent(r, d) {
      ListWritesOut(After(r), today, d);
    }
  }

  lemma ListWritesOut(w: World, today: int, d: int)
    requires StoreSound(w) && d < today
    ensures FileOf(List(w, today), d) == WholeOf(w, d)
  {
    CloseIsSound(w);
  }

  // ----- runs in which no record arrives for a day already listed

  ghost predicate NoLateRecord(r: Run) {
    r.Then? ==> NoLateRecord(r.past) && (r.step.DoWrite? ==> r.step.day !in Listed(r.past))
  }

  lemma {:induction false} ListedIsClosed(r: Run, d: int)
    requires NoLateRecord(r) && d in Listed(r)
    ensures !IsOpen(After(r), d)
  {
    if d in Listed(r.past) {
      ListedIsClosed(r.past, d);
    } else {
      DaysHaveFiles(After(r.past).files, r.step.today, d);
    }
  }

  lemma {:induction false} NotRecreated(r: Run, d: int)
    requires NoLateRecord(r)
    ensures !Recreated(r, d)
  {
    if r.Then? {
      NotRecreated(r.past, d);
      UploaderIsSound(r.past);
    }
  }

  /** A listed day's lines stay as they are. */
  lemma {:induction false} ListedStays(r: Run, t: Run, d: int)
    requires NoLateRecord(r) && Extends(r, t) && d in Listed(t)
    ensures NoLateRecord(t) && d in Listed(r)
    ensures Written(r, d) == Written(t, d) && WholeOf(After(r), d) == WholeOf(After(t), d)
  {
    if r != t {
      ListedStays(r.past, t, d);
      ListedIsClosed(r.past, d);
      StepWhole(r, d);
    }
  }

  /**
   Unless a record arrives for a day already listed, the condition holds, and
   whatever is posted is the whole file of a day over by then, crashes or not.
   */
  lemma PostsAreComplete(r: Run, i: nat)
    requires NoLateRecord(r) && i < |After(r).posts|
    ensures var w := After(r);
            var p := w.posts[i];
            && p.day < p.asOf
            && !IsOpen(w, p.day)
            && p.body == WholeOf(w, p.day)
            && (Uninterrupted(r) ==>
                Written(r, p.day) != [] && p.body == [HeaderLine(FirstHeader(r))] + Written(r, p.day))
  {
    var p, t := After(r).posts[i], PostedFrom(r, i);
    PostIsRead(r, i);
    UploaderIsSound(r);
    assert PostSound(After(r), Listed(r), p);
    UploaderIsSound(t);
    ListedStays(r, t, p.day);
    ListedIsClosed(r, p.day);
    ListedIsClosed(t, p.day);
    NotRecreated(t, p.day);
    if SentFile(p.day) in After(t).files {
      SentDayHasFileIff(t, p.day);
    }
    if Uninterrupted(r) {
      PostIsWholeIff(r, i);
      LatestIsEnd(t, p.day);
    }
  }

  /**
   A record can be lost: arriving between the reading of the file and the
   receiver's answer, it goes into the renamed file and is never posted.
   */
  lemma LateRecordIsLost(header: string, early: string, late: string)
    ensures var r := Then(Then(Then(Then(Then(Then(Booted(header), DoWrite(1, early, 0)), DoList(2)), DoTake),
                                    DoWrite(1, late, 0)), DoAnswer(true)), DoClose);
            var w := After(r);
            && Uninterrupted(r) && !NoLateRecord(r)
            && Written(r, 1) == [RecordLine(early), RecordLine(late)]
            && w.posts == [Post(1, [HeaderLine(header), RecordLine(early)], 2, true)]
            && DaysBefore(w.files, 2) == {}
            && w.files == map[SentFile(1) := [HeaderLine(header), RecordLine(early), RecordLine(late)]]
  {
    var r0 := Booted(header);
    var r1 := Then(r0, DoWrite(1, early, 0));
    var r2 := Then(r1, DoList(2));
    var r3 := Then(r2, DoTake);
    var r4 := Then(r3, DoWrite(1, late, 0));
    var r5 := Then(r4, DoAnswer(true));
    var r6 := Then(r5, DoClose);
    LateWorlds(header, early, late);
    assert [HeaderLine(header), RecordLine(early)] + [RecordLine(late)]
        == [HeaderLine(header), RecordLine(early), RecordLine(late)];
    assert 1 in Listed(r2) && 1 in Listed(r3) by {
      DaysHaveFiles(After(r1).files, 2, 1);
    }
    assert !NoLateRecord(r4) && !NoLateRecord(r5) && !NoLateRecord(r6);
    assert Uninterrupted(r0) && Uninterrupted(r1) && Uninterrupted(r2) && Uninterrupted(r3);
    assert Uninterrupted(r4) && Uninterrupted(r5) && Uninterrupted(r6);
    assert Written(r0, 1) == [] && Written(r1, 1) == Written(r2, 1) == Written(r3, 1) == [RecordLine(early)];
    assert Written(r6, 1) == Written(r5, 1) == Written(r4, 1) == [RecordLine(early)] + [RecordLine(late)];
    forall d
      ensures d !in DaysBefore(After(r6).files, 2)
    {
      DaysHaveFiles(After(r6).files, 2, d);
    }
  }

  lemma LateWorlds(header: string, early: string, late: string)
    ensures var first := [HeaderLine(header), RecordLine(early)];
            var r1 := Then(Booted(header), DoWrite(1, early, 0));
            var r6 := Then(Then(Then(Then(Then(r1, DoList(2)), DoTake), DoWrite(1, late, 0)), DoAnswer(true)), DoClose);
            && After(r1).files == map[DayFile(1) := []]
            && After(r6).files == map[SentFile(1) := first + [RecordLine(late)]]
            && After(r6).posts == [Post(1, first, 2, true)]
  {
    var first := [HeaderLine(header), RecordLine(early)];
    var w1 := World(map[DayFile(1) := []], At(DayFile(1)), header, Some(Opened(1, first)), 0, [], None, []);
    var w2 := World(map[DayFile(1) := first], Nowhere, header, None, 2, [1], None, []);
    var w3 := w2.(listed := [], reading := Some(Reading(1, first)));
    var w4 := w3.(descriptor := At(DayFile(1)), current := Some(Opened(1, [RecordLine(late)])));
    assert Write(Boot(header), 1, early, 0) == w1 by {
      EmptyAppend(map[DayFile(1) := []], At(DayFile(1)));
      assert [HeaderLine(header)] + [RecordLine(early)] == first;
    }
    assert List(w1, 2) == w2 by {
      assert [] + first == first;
      assert CloseOver(w1, 2).files == w2.files;
      OnlyDayOne(w2.files);
    }
    assert Take(w2) == w3;
    assert Write(w3, 1, late, 0) == w4 by {
      EmptyAppend(map[DayFile(1) := first], At(DayFile(1)));
      assert [] + [RecordLine(late)] == [RecordLine(late)];
    }
    var w5 := Answer(w4, true);
    assert w5.files == map[SentFile(1) := first];
    assert w5.posts == [] + [Post(1, first, 2, true)];
    assert Close(w5).files == map[SentFile(1) := first + [RecordLine(late)]];
    var r1 := Then(Booted(header), DoWrite(1, early, 0));
    assert After(Booted(header)) == Boot(header) && After(r1) == w1;
    var r3 := Then(Then(r1, DoList(2)), DoTake);
    assert After(r3) == w3;
    var r5 := Then(Then(r3, DoWrite(1, late, 0)), DoAnswer(true));
    assert After(r5) == w5;
  }

  lemma EmptyAppend(files: map<Name, seq<Line>>, d: Descriptor)
    ensures Append(files, d, []) == files
  {
    assert d.At? && d.name in files ==> files[d.name] + [] == files[d.name];
  }

  lemma OnlyDayOne(files: map<Name, seq<Line>>)
    requires DayFile(1) in files && files.Keys <= {DayFile(1), SentFile(1)}
    ensures Sorted(DaysBefore(files, 2)) == [1]
  {
    forall d
      ensures d in DaysBefore(files, 2) <==> d == 1
    {
      DaysHaveFiles(files, 2, d);
    }
    assert DaysBefore(files, 2) == {1};
    SortedSingleton(1);
  }

  /**
   A record can reopen a day: arriving after the file was renamed and closed, it
   starts a new one, which is posted as well and replaces the sent one.
   */
  lemma LateRecordReopensDay(header: string, early: string, late: string)
    ensures var sent := DayOne(Booted(header), early);
            var r := DayOne(sent, late);
            var first, second := [HeaderLine(header), RecordLine(early)], [HeaderLine(header), RecordLine(late)];
            && Uninterrupted(r) && Recreated(r, 1)
            && After(sent).files == map[SentFile(1) := first]
            && After(r).posts == [Post(1, first, 2, true), Post(1, second, 2, true)]
            && After(r).files == map[SentFile(1) := second]
  {
    var sent := DayOne(Booted(header), early);
    PostDayOne(Booted(header), early);
    PostDayOne(sent, late);
    assert Recreated(Then(sent, DoWrite(1, late, 0)), 1);
    StillRecreated(sent, late);
    StillUninterrupted(Booted(header), early);
    StillUninterrupted(sent, late);
  }

  /** One record for day 1, listed and posted on day 2. */
  function DayOne(r: Run, record: string): Run {
    Then(Then(Then(Then(r, DoWrite(1, record, 0)), DoList(2)), DoTake), DoAnswer(true))
  }

  lemma StillRecreated(r: Run, record: string)
    requires Recreated(Then(r, DoWrite(1, record, 0)), 1)
    ensures Recreated(DayOne(r, record), 1)
  {
    var listed := Then(Then(r, DoWrite(1, record, 0)), DoList(2));
    assert Recreated(listed, 1) && Recreated(Then(listed, DoTake), 1);
  }

  lemma StillUninterrupted(r: Run, record: string)
    requires Uninterrupted(r)
    ensures Uninterrupted(DayOne(r, record))
  {
    var listed := Then(Then(r, DoWrite(1, record, 0)), DoList(2));
    assert Uninterrupted(listed.past) && Uninterrupted(listed) && Uninterrupted(Then(listed, DoTake));
  }

  lemma PostDayOne(r: Run, record: string)
    requires After(r).current.None? && After(r).files.Keys <= {SentFile(1)}
    ensures var w := After(r);
            var lines := [HeaderLine(w.header), RecordLine(record)];
            After(DayOne(r, record)) ==
            World(map[SentFile(1) := lines], Nowhere, w.header, None, 2, [], None, w.posts + [Post(1, lines, 2, true)])
  {
    PostedDayOne(After(r), record);
    var r1 := Then(r, DoWrite(1, record, 0));
    var r2 := Then(r1, DoList(2));
    var r3 := Then(r2, DoTake);
    assert After(r1) == Write(After(r), 1, record, 0) && After(r2) == List(After(r1), 2) && After(r3) == Take(After(r2));
  }

  lemma PostedDayOne(w: World, record: string)
    requires w.current.None? && w.files.Keys <= {SentFile(1)}
    ensures var lines := [HeaderLine(w.header), RecordLine(record)];
            Answer(Take(List(Write(w, 1, record, 0), 2)), true) ==
            World(map[SentFile(1) := lines], Nowhere, w.header, None, 2, [], None, w.posts + [Post(1, lines, 2, true)])
  {
    var lines := [HeaderLine(w.header), RecordLine(record)];
    var files := w.files[DayFile(1) := []];
    EmptyAppend(files, At(DayFile(1)));
    var written := Write(w, 1, record, 0);
    assert [HeaderLine(w.header)] + [RecordLine(record)] == lines;
    assert written == w.(files := files, descriptor := At(DayFile(1)), current := Some(Opened(1, lines)));
    assert [] + lines == lines;
    var listed := List(written, 2);
    assert listed.files == w.files[DayFile(1) := lines];
    OnlyDayOne(listed.files);
    assert listed == w.(files := w.files[DayFile(1) := lines], descriptor := Nowhere, asOf := 2, listed := [1], reading := None);
    var taken := Take(listed);
    assert taken.reading == Some(Reading(1, lines)) && taken.listed == [];
    assert (taken.files - {DayFile(1)})[SentFile(1) := lines] == map[SentFile(1) := lines];
  }

  // ----- crashes

  function Records(lines: seq<Line>): seq<Line> {
    if lines == [] then []
    else Records(lines[..|lines| - 1]) + if lines[|lines| - 1].RecordLine? then [lines[|lines| - 1]] else []
  }

  lemma RecordsOneMore(lines: seq<Line>, line: Line)
    ensures Records(lines + [line]) == Records(lines) + if line.RecordLine? then [line] else []
  {
    assert (lines + [line])[..|lines|] == lines;
  }

  lemma {:induction false} RecordsOfPrefix(a: seq<Line>, b: seq<Line>)
    requires a <= b
    ensures Records(a) <= Records(b)
  {
    if |a| < |b| {
      RecordsOfPrefix(a, b[..|b| - 1]);
    } else {
      assert a == b;
    }
  }

  /** The last step wrote out all that was buffered before it. */
  predicate Forces(r: Run) {
    match r
    case Then(past, DoFlush(_)) => true
    case Then(past, DoClose) => true
    case Then(past, DoWrite(day, _, _)) => OpenDay(past).Some? && OpenDay(past).value != day
    case Then(past, DoList(today)) => OpenDay(past).Some? && OpenDay(past).value < today
    case _ => false
  }

  /** What the current process found in d's latest file when it started; nothing if the file is newer. */
  function Found(r: Run, d: int): seq<Line> {
    match r
    case Booted(_) => []
    case Then(past, DoCrash(_)) => Records(FileOf(After(r), d))
    case Then(past, step) => if Writes(step, d) && Creates(After(past), d) then [] else Found(past, d)
  }

  /** What the current process wrote to d's latest file. */
  function SinceBoot(r: Run, d: int): seq<Line> {
    match r
    case Booted(_) => []
    case Then(past, DoCrash(_)) => []
    case Then(past, DoWrite(day, record, _)) =>
      if day != d then SinceBoot(past, d)
      else (if Creates(After(past), d) then [] else SinceBoot(past, d)) + [RecordLine(record)]
    case Then(past, _) => SinceBoot(past, d)
  }

  /** The part of it written before buffers were last written out. */
  function Forced(r: Run, d: int): seq<Line> {
    if r.Booted? || r.step.DoCrash? || (Writes(r.step, d) && Creates(After(r.past), d)) then []
    else if Forces(r) then SinceBoot(r.past, d)
    else Forced(r.past, d)
  }

  /** But for a new one, files only grow, and by everything buffered when a step forces it out. */
  lemma StepFile(r: Run, d: int)
    requires r.Then? && !(Writes(r.step, d) && Creates(After(r.past), d))
    ensures FileOf(After(r.past), d) <= FileOf(After(r), d)
    ensures Forces(r) ==> WholeOf(After(r.past), d) <= FileOf(After(r), d)
  {
    RunIsSound(r.past);
    OpenDayIsOpen(r.past);
    var w := After(r.past);
    match r.step
    case DoWrite(day, record, spill) => WriteGrows(w, day, record, spill, d);
    case DoFlush(today) => FlushIsSound(w, today);
    case DoClose => CloseIsSound(w);
    case DoList(today) => ListIsSound(w, today);
    case DoTake =>
    case DoAnswer(accepted) => AnswerIsSound(w, accepted);
    case DoCrash(header) =>
  }

  lemma WriteGrows(w: World, day: int, record: string, spill: nat, d: int)
    requires StoreSound(w) && !(day == d && Creates(w, d))
    ensures FileOf(w, d) <= FileOf(Write(w, day, record, spill), d)
    ensures w.current.Some? && w.current.value.day != day ==> WholeOf(w, d) <= FileOf(Write(w, day, record, spill), d)
  {
    CloseIsSound(w);
    OpenIsSound(w, day);
    PutIsSound(Open(w, day), record, spill);
  }

  lemma RecordsGrow(r: Run, d: int)
    requires r.Then? && !r.step.DoCrash?
    ensures Records(WholeOf(After(r), d)) ==
            (if Writes(r.step, d) && Creates(After(r.past), d) then [] else Records(WholeOf(After(r.past), d)))
            + if Writes(r.step, d) then [RecordLine(r.step.record)] else []
  {
    StepWhole(r, d);
    if Writes(r.step, d) {
      var before := WholeOf(After(r.past), d);
      RecordsOneMore(before, RecordLine(r.step.record));
      RecordsOneMore([], HeaderLine(After(r.past).header));
      RecordsOneMore([HeaderLine(After(r.past).header)], RecordLine(r.step.record));
      assert [] + [HeaderLine(After(r.past).header)] == [HeaderLine(After(r.past).header)];
    }
  }

  lemma {:induction false} WholeSinceBoot(r: Run, d: int)
    ensures Records(WholeOf(After(r), d)) == Found(r, d) + SinceBoot(r, d)
  {
    if r.Then? {
      if r.step.DoCrash? {
        assert WholeOf(After(r), d) == FileOf(After(r), d);
      } else {
        WholeSinceBoot(r.past, d);
        RecordsGrow(r, d);
        if Writes(r.step, d) && !Creates(After(r.past), d) {
          Regroup(Found(r, d), SinceBoot(r.past, d), [RecordLine(r.step.record)]);
        }
      }
    }
  }

  lemma Regroup(a: seq<Line>, b: seq<Line>, c: seq<Line>)
    ensures a + b + c == a + (b + c)
  {
  }

  lemma {:induction false} ForcedOnDisk(r: Run, d: int)
    ensures Found(r, d) + Forced(r, d) <= Records(FileOf(After(r), d))
  {
    if r.Then? && !r.step.DoCrash? && !(Writes(r.step, d) && Creates(After(r.past), d)) {
      ForcedOnDisk(r.past, d);
      StepFile(r, d);
      if Forces(r) {
        WholeSinceBoot(r.past, d);
        RecordsOfPrefix(WholeOf(After(r.past), d), FileOf(After(r), d));
      } else {
        RecordsOfPrefix(FileOf(After(r.past), d), FileOf(After(r), d));
      }
    }
  }

  /**
   What a process leaves on disk in a day's latest file is a prefix of what it
   wrote there, with everything written before buffers were last written out,
   after what earlier processes left. A crash now would keep exactly that.
   */
  lemma CrashKeepsFlushedPrefix(r: Run, d: int, header: string)
    ensures var kept := Records(FileOf(After(Then(r, DoCrash(header))), d));
            && Found(r, d) + Forced(r, d) <= kept
            && kept <= Found(r, d) + SinceBoot(r, d)
  {
    ForcedOnDisk(r, d);
    WholeSinceBoot(r, d);
    RecordsOfPrefix(FileOf(After(r), d), WholeOf(After(r), d));
  }
}
