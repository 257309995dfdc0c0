// scripts/build_placement_store.py: the directory object that reads, checks, creates and appends.
module PlacementOwner {
  import opened Common
  import opened ByteCodec
  import opened PlacementRecord
  import opened PlacementLog
  import opened PlacementJournal
  import opened PlacementStore

  // The durable side.
  class Disk {
    var files: Files

    constructor (files: Files)
      ensures this.files == files
    {
      this.files := files;
    }
  }

  class PlacementDirectory {
    const book: Book
    const disk: Disk
    const writable: bool
    var journals: map<Bytes, Journal>
    var fenced: bool

    function Value(): Directory
      reads this
    {
      Directory(journals, fenced, writable)
    }

    constructor (book: Book, disk: Disk, writable: bool)
      ensures this.book == book && this.disk == disk && Value() == Directory(map[], false, writable)
    {
      this.book, this.disk, this.writable := book, disk, writable;
      journals, fenced := map[], false;
    }

    // Read every journal; one that does not replay keeps the directory closed.
    method OpenAll() returns (ok: bool)
      modifies this
      ensures ok <==> Loadable(book, disk.files)
      ensures ok ==> Value() == Opened(book, disk.files, writable)
    {
      var names := disk.files.Keys;
      var read: map<Bytes, Journal> := map[];
      if |disk.files| > MAX_PLACEMENTS { return false; }
      while names != {}
        invariant names <= disk.files.Keys && read.Keys == disk.files.Keys - names
        invariant forall k :: k in read ==> KeyText(k) && Load(book, k, disk.files[k]) == Some(read[k])
        decreases names
      {
        var k :| k in names;
        var j := Load(book, k, disk.files[k]);
        if !KeyText(k) || j.None? { return false; }
        read := read[k := j.value];
        names := names - {k};
      }
      journals, fenced := read, false;
      ok := true;
    }

    method CheckAll() returns (ok: bool)
      ensures ok <==> Check(Value(), disk.files)
    {
      if fenced || |disk.files| > MAX_PLACEMENTS || journals.Keys != disk.files.Keys { return false; }
      var names := journals.Keys;
      while names != {}
        invariant names <= journals.Keys
        invariant forall k :: k in journals.Keys - names ==> journals[k].raw == disk.files[k]
        decreases names
      {
        var k :| k in names;
        if journals[k].raw != disk.files[k] { return false; }
        names := names - {k};
      }
      ok := true;
    }

    method IsReady(key: Bytes) returns (ok: bool)
      ensures ok <==> Ready(Value(), disk.files, key)
    {
      var same := CheckAll();
      if !same || !KeyText(key) || key in journals || |journals| >= MAX_PLACEMENTS { return false; }
      var names := journals.Keys;
      while names != {}
        invariant names <= journals.Keys
        invariant forall k :: k in journals.Keys - names ==> !journals[k].Pending()
        decreases names
      {
        var k :| k in names;
        if journals[k].Pending() { return false; }
        names := names - {k};
      }
      ok := true;
    }

    // Create a journal with its intent; only then does it carry fresh authority.
    method CreateJournal(plan: Plan, m: Manifest, a: Address, end: Creation) returns (ok: bool)
      modifies this, disk
      ensures match CreateBytes(book, old(Value()), old(disk.files), plan, m, a)
              case None => !ok && Value() == old(Value()) && disk.files == old(disk.files)
              case Some(raw) =>
                && ok == end.Made? && Load(book, plan.key, raw).Some?
                && Value() == CreateDirectory(old(Value()), plan.key, Load(book, plan.key, raw).value, end)
                && disk.files == CreateFiles(old(disk.files), plan.key, Load(book, plan.key, raw).value, end)
    {
      if !writable || !book.validPlan(plan) { return false; }
      var ready := IsReady(plan.key);
      if !ready || m.generation != plan.before.generation || !a.Valid() { return false; }
      var out := book.frame(Empty(), book.intent(plan, m, a));
      if out.None? { return false; }
      var j := Load(book, plan.key, out.value);
      if j.None? { return false; }
      match end
      case Made =>
        disk.files := disk.files[plan.key := out.value];
        journals := journals[plan.key := j.value.(freshIntent := true)];
        ok := true;
      case NoFile =>
        fenced := true;
        ok := false;
      case Partial(written, noted) =>
        disk.files := disk.files[plan.key := out.value[..Least(written, |out.value|)]];
        if noted && written >= |out.value| { journals := journals[plan.key := j.value]; }
        fenced := true;
        ok := false;
    }

    // Append one frame: every check first, then the write, then the owner's own state.
    method Append(key: Bytes, p: Payload, end: Outcome) returns (ok: bool)
      requires key in journals
      modifies this, disk
      ensures match Appended(book, old(Value()), old(disk.files), key, p)
              case None => !ok && Value() == old(Value()) && disk.files == old(disk.files)
              case Some(j) =>
                && ok == end.Complete? && Value() == AppendDirectory(old(Value()), key, p, j, end)
                && disk.files == AppendFiles(old(Value()), old(disk.files), key, j, end)
    {
      var j := journals[key];
      if !writable { return false; }
      if (p.PreparedFrame? || p.DispatchFrame?) && !j.freshIntent { return false; }
      if p.DispatchFrame? && !j.preparedThisOwner { return false; }
      var same := CheckAll();
      if !same { return false; }
      var out := book.frame(j.chain, p);
      if out.None? { return false; }
      var raw := j.raw + out.value;
      var chain := book.replay(raw);
      if chain.None? || !Reserved(chain.value, |raw|) { return false; }
      ok := WriteFrame(key, p, Journal(raw, chain.value, j.freshIntent, p.PreparedFrame?
        || (j.preparedThisOwner && !p.DispatchFrame?)), end);
    }

    // Dispatch authority is consumed before the first byte; preparation counts only after the last check.
    method WriteFrame(key: Bytes, p: Payload, next: Journal, end: Outcome) returns (ok: bool)
      requires key in journals
      modifies this, disk
      ensures ok == end.Complete? && Value() == AppendDirectory(old(Value()), key, p, next, end)
      ensures disk.files == AppendFiles(old(Value()), old(disk.files), key, next, end)
    {
      var was := journals[key];
      if p.DispatchFrame? { journals := journals[key := was.(preparedThisOwner := false)]; }
      match end
      case Complete =>
        disk.files := disk.files[key := next.raw];
        journals := journals[key := next];
        ok := true;
      case Interrupted(written, noted) =>
        disk.files := disk.files[key := next.raw[..Least(|was.raw| + written, |next.raw|)]];
        var all := |was.raw| + written >= |next.raw|;
        journals := journals[key := AfterFault(was, next, p, noted && all)];
        fenced := true;
        ok := false;
    }
  }
}
