/** The sans-io SFTP server (src/sftp.rs): buffers, streams, handles and cursors, updated in place. */
module SftpServer {
  import opened Bytes
  import opened FatTree
  import opened FatFile
  import opened FatTime
  import opened FsPath
  import opened Wire
  import opened WireReader
  import opened SftpVolume
  import opened SftpModel
  import opened SftpStream
  import opened SftpReplies
  import opened SftpCursors
  import opened SftpFrames
  import opened SftpRuns
  import opened SftpChunks
  import opened SftpMachine
  import opened SftpFollows
  import opened SftpProgress
  import opened SftpDisk

  /** Zero-filled growth in progress, with a handle of its own. */
  datatype ResizeJob = ResizeJob(id: nat, components: Path, attrs: RequestedAttrs, file: FileHandle)

  /** An error a handler returns becomes a STATUS reply. */
  function Answer(id: nat, err: Option<Status>, out: seq<Byte>): seq<Byte> {
    if err.Some? then out + StatusReply(id, err.value) else out
  }

  /** Handles that stay open keep their cursors, but for those on a rewritten file, and new ones start without. */
  ghost predicate Remembers(was: seq<Handle>, now: seq<Handle>, root: Vol, rewritten: Option<Path>) {
    |now| == |was| && Caches(now) == CachesAfter(Slots(was), Slots(now), root, Caches(was), rewritten)
  }

  class Sftp {
    var input: seq<Byte>
    var out: seq<Byte>
    var readStream: Option<ReadStream>
    var writeStream: Option<WriteStream>
    var resize: Option<ResizeJob>
    var skip: nat
    var handles: seq<Handle>
    var generation: nat
    var tokens: seq<nat>
    var fatal: bool
    var cardBudget: bool
    /** Slots of open files whose entry has been removed or renamed since. */
    ghost var lost: set<nat>

    constructor ()
      ensures input == [] && out == [] && readStream.None? && writeStream.None? && resize.None? && skip == 0
      ensures handles == seq(MAX_HANDLES, _ => Closed) && tokens == seq(MAX_HANDLES, _ => 0) && generation == 0
      ensures !fatal && cardBudget && lost == {}
    {
      input, out := [], [];
      readStream, writeStream, resize, skip := None, None, None, 0;
      handles, generation, tokens := seq(MAX_HANDLES, _ => Closed), 0, seq(MAX_HANDLES, _ => 0);
      fatal, cardBudget, lost := false, true, {};
    }

    // -------------------------------------------------------------------
    // What the state stands for
    // -------------------------------------------------------------------

    ghost function CurrentMode(): Mode
      reads this
    {
      if fatal then Fatal
      else if resize.Some? then Growing(Growth(resize.value.id, resize.value.components, resize.value.attrs))
      else if readStream.Some? then Reading(readStream.value)
      else if writeStream.Some? then Writing(writeStream.value)
      else if skip > 0 then Skipping(skip)
      else Idle
    }

    ghost function View(disk: Disk): Core
      reads this, disk
    {
      Core(disk.root, disk.nextId, Slots(handles), tokens, generation, CurrentMode(), lost)
    }

    ghost function JobCache(): Cache
      reads this
    {
      if resize.Some? then resize.value.file.cache else NO_CACHE
    }

    ghost function Mach(disk: Disk): Machine
      reads this, disk
    {
      Machine(View(disk), Caches(handles), JobCache())
    }

    /** The machine, the replies that have not left yet, and the input that has not been used. */
    ghost function Conf(disk: Disk): Config
      reads this, disk
    {
      Config(Mach(disk), out, input)
    }

    /** At most one thing is in progress. */
    ghost predicate Exclusive()
      reads this
    {
      && (resize.Some? ==> readStream.None? && writeStream.None? && skip == 0)
      && (readStream.Some? ==> writeStream.None? && skip == 0)
      && (writeStream.Some? ==> skip == 0)
      && (fatal ==> resize.None? && readStream.None? && writeStream.None? && skip == 0)
    }

    ghost predicate Tidy()
      reads this
    {
      && Exclusive() && |handles| == MAX_HANDLES && |tokens| == MAX_HANDLES && generation < GENERATIONS
      && (resize.Some? ==> FilePath(resize.value.file) == resize.value.components)
    }

    ghost predicate Valid(env: Env, disk: Disk)
      reads this, disk
      ensures Valid(env, disk) ==> disk.Valid(env) && EnvOk(env) && MachineOk(env, Mach(disk)) && |input| <= MAX_INPUT && |out| <= MAX_OUTPUT
    {
      disk.Valid(env) && Tidy() && MachineOk(env, Mach(disk)) && |input| <= MAX_INPUT && |out| <= MAX_OUTPUT
    }

    /** Ready to serve a request. */
    ghost predicate Ready(env: Env, disk: Disk)
      reads this, disk
    {
      disk.Valid(env) && Tidy() && CurrentMode().Idle? && out == []
    }

    // -------------------------------------------------------------------
    // Replies
    // -------------------------------------------------------------------

    method Begin(kind: Byte) returns (start: nat)
      modifies `out
      ensures start == |old(out)| && out == old(out) + (Be32(0) + [kind])
    {
      start := |out|;
      out := out + Be32(0);
      out := out + [kind];
    }

    method Finish(start: nat, ghost before: seq<Byte>, ghost kind: Byte, ghost fields: seq<Byte>)
      requires start == |before| && out == before + (Be32(0) + [kind]) + fields
      modifies `out
      ensures out == before + Frame(kind, fields)
    {
      var length := |out| - start - 4;
      assert out[..start] == before && out[start + 4..] == [kind] + fields;
      out := out[..start] + Be32(length) + out[start + 4..];
    }

    method PutU32(value: nat)
      modifies `out
      ensures out == old(out) + Be32(value)
    {
      out := out + Be32(value);
    }

    method PutString(bytes: seq<Byte>)
      modifies `out
      ensures out == old(out) + Str(bytes)
    {
      PutU32(|bytes|);
      out := out + bytes;
    }

    method SendStatus(id: nat, s: Status)
      modifies `out
      ensures out == old(out) + StatusReply(id, s)
    {
      var start := Begin(FXP_STATUS);
      PutU32(id);
      PutU32(s.code);
      PutString(s.message);
      PutString([]);
      Finish(start, old(out), FXP_STATUS, Be32(id) + (Be32(s.code) + Str(s.message) + Str([])));
    }

    method SendCanonical(id: nat, canonical: seq<Byte>)
      modifies `out
      ensures out == old(out) + Frame(FXP_NAME, Be32(id) + (Be32(1) + Str(canonical) + Str(canonical) + Be32(0)))
    {
      hide Be32, Str;
      var start := Begin(FXP_NAME);
      PutU32(id);
      PutU32(1);
      PutString(canonical);
      PutString(canonical);
      PutU32(0);
      Finish(start, old(out), FXP_NAME, Be32(id) + (Be32(1) + Str(canonical) + Str(canonical) + Be32(0)));
    }

    method SendAttrs(id: nat, attrs: seq<Byte>)
      modifies `out
      ensures out == old(out) + Frame(FXP_ATTRS, Be32(id) + attrs)
    {
      hide Be32;
      var start := Begin(FXP_ATTRS);
      PutU32(id);
      out := out + attrs;
      Finish(start, old(out), FXP_ATTRS, Be32(id) + attrs);
    }

    method SendNames(id: nat, count: nat, names: seq<Byte>)
      modifies `out
      ensures out == old(out) + NamesReply(id, count, names)
    {
      hide Be32;
      var start := Begin(FXP_NAME);
      PutU32(id);
      PutU32(count);
      out := out + names;
      Finish(start, old(out), FXP_NAME, Be32(id) + (Be32(count) + names));
    }

    /** The declared length counts the payload that is appended later. */
    method SendDataHeader(id: nat, length: nat)
      modifies `out
      ensures out == old(out) + DataHeader(id, length)
    {
      hide Be32;
      var start := Begin(FXP_DATA);
      PutU32(id);
      PutU32(length);
      var total := |out| - start - 4 + length;
      assert out[start + 4..] == [FXP_DATA] + Be32(id) + Be32(length);
      out := out[..start] + Be32(total) + out[start + 4..];
    }

    method PutWords(values: seq<nat>)
      modifies `out
      ensures out == old(out) + Words(values)
    {
      hide Be64;
      for i := 0 to |values|
        invariant out == old(out) + Words(values[..i])
      {
        assert values[..i + 1][..i] == values[..i];
        out := out + Be64(values[i]);
      }
      assert values[..|values|] == values;
    }

    method SendWords(id: nat, values: seq<nat>)
      modifies `out
      ensures out == old(out) + WordsReply(id, values)
    {
      hide Be32, Words;
      var start := Begin(FXP_EXTENDED_REPLY);
      PutU32(id);
      PutWords(values);
      Finish(start, old(out), FXP_EXTENDED_REPLY, Be32(id) + Words(values));
    }

    method SendHandle(id: nat, slot: nat)
      requires slot < |tokens|
      modifies `out
      ensures out == old(out) + HandleReply(id, tokens[slot])
    {
      var start := Begin(FXP_HANDLE);
      PutU32(id);
      PutString(Be32(tokens[slot]));
      Finish(start, old(out), FXP_HANDLE, Be32(id) + Str(Be32(tokens[slot])));
    }

    method PutExtensions(extensions: seq<(string, string)>)
      modifies `out
      ensures out == old(out) + ExtensionBytes(extensions)
    {
      hide Text, Be32, Str;
      for i := 0 to |extensions|
        invariant out == old(out) + ExtensionBytes(extensions[..i])
      {
        assert extensions[..i + 1][..i] == extensions[..i];
        PutString(Text(extensions[i].0));
        PutString(Text(extensions[i].1));
      }
      assert extensions[..|extensions|] == extensions;
    }

    method SendVersion()
      modifies `out
      ensures out == old(out) + VersionReply()
    {
      hide ExtensionBytes, Be32;
      var start := Begin(FXP_VERSION);
      PutU32(3);
      PutExtensions(EXTENSIONS);
      Finish(start, old(out), FXP_VERSION, Be32(3) + ExtensionBytes(EXTENSIONS));
    }

    // -------------------------------------------------------------------
    // Handles
    // -------------------------------------------------------------------

    method FindFree() returns (at: nat)
      ensures at == FirstFree(Slots(handles))
    {
      at := 0;
      while at < |handles| && !handles[at].Closed?
        invariant at <= |handles| && forall k :: 0 <= k < at ==> !handles[k].Closed?
      {
        at := at + 1;
      }
      FirstFreeUnique(Slots(handles), at);
    }

    method Allocate(ghost disk: Disk, handle: Handle) returns (slot: Option<nat>)
      requires |tokens| == |handles| && generation < GENERATIONS
      modifies `handles, `generation, `tokens
      ensures |tokens| == |handles| && generation < GENERATIONS
      ensures var a := Allocated(old(View(disk)), SlotOfHandle(handle));
              if a.None? then slot.None? && View(disk) == old(View(disk)) && handles == old(handles)
              else slot == Some(a.value.1) && View(disk) == a.value.0 && a.value.1 < |tokens| &&
                   a.value.1 < |old(handles)| && old(handles)[a.value.1].Closed? && handles == old(handles)[a.value.1 := handle]
    {
      hide FirstFree, TokenFor, SlotOfHandle, Slots;
      var at := FindFree();
      if at == |handles| { return None; }
      OnlyClosedIsFree(handles, at);
      generation := (generation + 1) % GENERATIONS;
      tokens := tokens[at := TokenFor(generation, at)];
      SlotsWith(handles, at, handle);
      handles := handles[at := handle];
      return Some(at);
    }

    method SlotOf(ghost disk: Disk, token: Token) returns (slot: Option<nat>)
      requires |tokens| == MAX_HANDLES && |handles| == MAX_HANDLES
      ensures slot == SftpModel.SlotOf(View(disk), token)
      ensures slot.Some? ==> slot.value < MAX_HANDLES && !handles[slot.value].Closed?
    {
      if |token| != 4 { return None; }
      var number := FromBe32(token);
      var at := number % 256;
      if at >= MAX_HANDLES || handles[at].Closed? || tokens[at] != number { return None; }
      return Some(at);
    }

    /** Every handle on the file at `path` forgets its cursors. */
    method InvalidateFile(path: Path)
      modifies `handles
      ensures Slots(handles) == old(Slots(handles)) && Caches(handles) == Forget(old(Slots(handles)), old(Caches(handles)), path)
    {
      hide SamePath;
      ghost var was := handles;
      for i := 0 to |handles|
        invariant |handles| == |was| && Slots(handles) == Slots(was)
        invariant forall k :: i <= k < |handles| ==> handles[k] == was[k]
        invariant forall k :: 0 <= k < i ==> CacheOf(handles[k]) == Forget(Slots(was), Caches(was), path)[k]
      {
        if handles[i].OpenFile? && SamePath(FilePath(handles[i].file), path) {
          var forgetful := OpenFile(handles[i].file.(cache := Forgotten(handles[i].file.cache)));
          SlotsWith(handles, i, forgetful);
          SameSlot(handles, i, forgetful);
          handles := handles[i := forgetful];
        }
      }
    }

    // -------------------------------------------------------------------
    // Request handlers
    // -------------------------------------------------------------------

    /** A handler did what it should; only its reply, the volume and the handles changed. */
    twostate predicate Done(env: Env, disk: Disk, s: Served, id: nat, new err: Option<Status>, rewritten: Option<Path>)
      reads this, disk
    {
      && View(disk) == s.core && Answer(id, err, out) == s.out
      && input == old(input) && cardBudget == old(cardBudget)
      && disk.Valid(env) && Tidy() && JobCache() == JobAfter(s.core)
      && Remembers(old(handles), handles, disk.root, rewritten)
    }

    /** The request was served as the reference says. */
    twostate predicate Handled(env: Env, disk: Disk, id: nat, r: Request, new err: Option<Status>)
      requires EnvOk(env)
      reads this, disk
    {
      Done(env, disk, Serve(env, old(View(disk)), id, r), id, err, Rewritten(env, old(View(disk)), r))
    }

    method RealPath(env: Env, disk: Disk, id: nat, reader: Reader) returns (err: Option<Status>)
      requires Ready(env, disk)
      modifies this, reader
      ensures Handled(env, disk, id, ParseRequest(FXP_REALPATH, old(reader.bytes)), err)
    {
      hide Resolved, Displayed, ParseRequest, StatusReply, EnvOk, TakePath, Frame, Str, Remembers;
      PathRequests(FXP_REALPATH, reader.bytes);
      RemembersAll(handles, disk.root);
      var path := reader.Path();
      if path.None? { return Some(BAD_MESSAGE); }
      var components := Resolve([], path.value);
      var canonical := Display(components);
      SendCanonical(id, canonical);
      return None;
    }

    method StatComponents(env: Env, disk: Disk, id: nat, components: Path) returns (err: Option<Status>)
      requires Ready(env, disk)
      modifies `out, disk`touches
      ensures Answer(id, err, out) == ServeStat(env, View(disk), id, components).out
      ensures ServeStat(env, View(disk), id, components).core == View(disk)
    {
      hide Frame, AttrBytes, RootAttrBytes, StatusReply, EnvOk, Tidy;
      if components == [] {
        SendAttrs(id, RootAttrBytes());
        return None;
      }
      var parent, leaf := components[..|components| - 1], components[|components| - 1];
      assert parent + [leaf] == components;
      var entry := disk.FindEntry(parent, leaf);
      if entry.None? { return Some(NO_SUCH_FILE); }
      SendAttrs(id, AttrBytes(env, entry.value));
      return None;
    }

    method StatPath(env: Env, disk: Disk, kind: Byte, id: nat, reader: Reader) returns (err: Option<Status>)
      requires Ready(env, disk) && (kind == FXP_STAT || kind == FXP_LSTAT)
      modifies this, disk`touches, reader
      ensures Handled(env, disk, id, ParseRequest(kind, old(reader.bytes)), err)
    {
      hide Resolved, StatusReply, ParseRequest, ServeStat, EnvOk, TakePath, Remembers;
      PathRequests(kind, reader.bytes);
      RemembersAll(handles, disk.root);
      var path := reader.Path();
      if path.None? { return Some(BAD_MESSAGE); }
      var components := Resolve([], path.value);
      err := StatComponents(env, disk, id, components);
    }

    method FStat(env: Env, disk: Disk, id: nat, reader: Reader) returns (err: Option<Status>)
      requires Ready(env, disk)
      modifies this, disk`touches, reader
      ensures Handled(env, disk, id, ParseRequest(FXP_FSTAT, old(reader.bytes)), err)
    {
      hide StatusReply, ParseRequest, ServeStat, EnvOk, TakeString, SftpModel.SlotOf, Remembers;
      TokenRequests(FXP_FSTAT, reader.bytes);
      RemembersAll(handles, disk.root);
      var token := reader.String();
      if token.None? { return Some(BAD_MESSAGE); }
      var slot := SlotOf(disk, token.value);
      if slot.None? { return Some(INVALID_HANDLE); }
      var components := PathOf(SlotOfHandle(handles[slot.value]));
      err := StatComponents(env, disk, id, components);
    }

    method OpenDirAt(env: Env, disk: Disk, id: nat, components: Path) returns (err: Option<Status>)
      requires Ready(env, disk)
      modifies this, disk`touches
      ensures Done(env, disk, ServeOpenDir(old(View(disk)), id, components), id, err, None)
    {
      hide StatusReply, HandleReply, EnvOk, Allocated, TreeOk, Text, Lookup, Remembers;
      RemembersAll(handles, disk.root);
      var dir := disk.OpenDirPath(components);
      if dir.None? {
        if components == [] { return Some(NO_SUCH_FILE); }
        var parent, leaf := components[..|components| - 1], components[|components| - 1];
        assert parent + [leaf] == components;
        var entry := disk.FindEntry(parent, leaf);
        return if entry.Some? then Some(Failure("Not a directory")) else Some(NO_SUCH_FILE);
      }
      ghost var was := handles;
      var slot := Allocate(disk, OpenDirectory(components, 0));
      if slot.None? { return Some(Failure("Too many open handles")); }
      RemembersWith(was, was, disk.root, None, slot.value, OpenDirectory(components, 0));
      SendHandle(id, slot.value);
      return None;
    }

    method OpenDir(env: Env, disk: Disk, id: nat, reader: Reader) returns (err: Option<Status>)
      requires Ready(env, disk)
      modifies this, disk`touches, reader
      ensures Handled(env, disk, id, ParseRequest(FXP_OPENDIR, old(reader.bytes)), err)
    {
      hide Resolved, StatusReply, ParseRequest, EnvOk, TakePath, ServeOpenDir, TreeOk, Remembers;
      PathRequests(FXP_OPENDIR, reader.bytes);
      RemembersAll(handles, disk.root);
      var path := reader.Path();
      if path.None? { return Some(BAD_MESSAGE); }
      var components := Resolve([], path.value);
      err := OpenDirAt(env, disk, id, components);
    }

    /** The directory handle in `slot` has now sent the entries before `next`. */
    method Advance(env: Env, disk: Disk, slot: nat, next: nat)
      requires Ready(env, disk) && slot < MAX_HANDLES && handles[slot].OpenDirectory?
      modifies `handles
      ensures Ready(env, disk) && Remembers(old(handles), handles, disk.root, None)
      ensures View(disk) == old(View(disk)).(slots := old(View(disk)).slots[slot := DirSlot(old(handles)[slot].components, next)])
    {
      hide EnvOk, TreeOk, Remembers;
      var after := OpenDirectory(handles[slot].components, next);
      RemembersAll(handles, disk.root);
      RemembersWith(handles, handles, disk.root, None, slot, after);
      SlotsWith(handles, slot, after);
      handles := handles[slot := after];
    }

    method ReadDirAt(env: Env, disk: Disk, id: nat, slot: nat) returns (err: Option<Status>)
      requires Ready(env, disk) && slot < MAX_HANDLES && handles[slot].OpenDirectory?
      modifies this, disk`touches
      ensures Done(env, disk, ServeNames(env, old(View(disk)), id, slot), id, err, None)
    {
      hide StatusReply, NamesReply, EnvOk, TreeOk, Text, NamesBytes, Batch, Lookup, Unsent, Remembers;
      RemembersAll(handles, disk.root);
      var components, next := handles[slot].components, handles[slot].next;
      var dir := disk.OpenDirPath(components);
      if dir.None? { return Some(NO_SUCH_FILE); }
      PlainEntries(env, disk.root, components);
      var names, count := NextNames(env, components, dir.value.entries, next);
      if count == 0 {
        SendStatus(id, END_OF_DIRECTORY);
        return None;
      }
      Advance(env, disk, slot, next + count);
      SendNames(id, count, names);
      return None;
    }

    method ReadDir(env: Env, disk: Disk, id: nat, reader: Reader) returns (err: Option<Status>)
      requires Ready(env, disk)
      modifies this, disk`touches, reader
      ensures Handled(env, disk, id, ParseRequest(FXP_READDIR, old(reader.bytes)), err)
    {
      hide StatusReply, ParseRequest, EnvOk, TakeString, SftpModel.SlotOf, ServeNames, Text, TreeOk, Remembers;
      TokenRequests(FXP_READDIR, reader.bytes);
      RemembersAll(handles, disk.root);
      var token := reader.String();
      if token.None? { return Some(BAD_MESSAGE); }
      var slot := SlotOf(disk, token.value);
      if slot.None? { return Some(INVALID_HANDLE); }
      if !handles[slot.value].OpenDirectory? { return Some(Failure("Not a directory handle")); }
      err := ReadDirAt(env, disk, id, slot.value);
    }

    method Close(env: Env, disk: Disk, id: nat, reader: Reader) returns (err: Option<Status>)
      requires Ready(env, disk)
      modifies this, reader
      ensures Handled(env, disk, id, ParseRequest(FXP_CLOSE, old(reader.bytes)), err)
    {
      hide StatusReply, ParseRequest, EnvOk, TakeString, SftpModel.SlotOf, Text, TreeOk, Remembers, Serve, Rewritten;
      TokenRequests(FXP_CLOSE, reader.bytes);
      CloseServed(env, View(disk), id, ParseRequest(FXP_CLOSE, reader.bytes));
      RemembersAll(handles, disk.root);
      var token := reader.String();
      if token.None? { return Some(BAD_MESSAGE); }
      var slot := SlotOf(disk, token.value);
      if slot.None? { return Some(INVALID_HANDLE); }
      RemembersWith(handles, handles, disk.root, None, slot.value, Closed);
      SlotsWith(handles, slot.value, Closed);
      handles := handles[slot.value := Closed];
      lost := lost - {slot.value};
      SendStatus(id, OK);
      return None;
    }

    method StartRead(env: Env, disk: Disk, id: nat, slot: nat, offset: nat, length: nat)
      requires Ready(env, disk)
      modifies `out, `readStream
      ensures Done(env, disk, AcceptRead(old(View(disk)), id, slot, offset, length), id, None, None)
    {
      hide DataHeader, EnvOk, TreeOk, Remembers;
      RemembersAll(handles, disk.root);
      SendDataHeader(id, length);
      readStream := Some(ReadStream(slot, offset, length));
    }

    method ReadAt(env: Env, disk: Disk, id: nat, token: Token, offset: nat, wanted: nat) returns (err: Option<Status>)
      requires Ready(env, disk)
      modifies this, disk`touches
      ensures Done(env, disk, ServeRead(old(View(disk)), id, token, offset, wanted), id, err, None)
    {
      hide StatusReply, AcceptRead, EnvOk, SftpModel.SlotOf, Text, TreeOk, Lookup, Remembers;
      RemembersAll(handles, disk.root);
      var slot := SlotOf(disk, token);
      if slot.None? { return Some(INVALID_HANDLE); }
      if !handles[slot.value].OpenFile? { return Some(Failure("Not a file handle")); }
      var file := handles[slot.value].file;
      if !file.readable { return Some(Failure("Handle not open for reading")); }
      var entry := disk.FindEntry(file.parent, file.leaf);
      if entry.None? { return Some(NO_SUCH_FILE); }
      var size := SizeOf(entry.value);
      if offset >= size || wanted == 0 {
        SendStatus(id, END_OF_FILE);
        return None;
      }
      StartRead(env, disk, id, slot.value, offset, Min(size - offset, Min(wanted, MAX_READ_REPLY)));
      return None;
    }

    method Read(env: Env, disk: Disk, id: nat, reader: Reader) returns (err: Option<Status>)
      requires Ready(env, disk)
      modifies this, disk`touches, reader
      ensures Handled(env, disk, id, ParseRequest(FXP_READ, old(reader.bytes)), err)
    {
      hide StatusReply, EnvOk, TakeString, TakeU64, TakeU32, ServeRead, Text, TreeOk, Remembers;
      assert ParseRequest(FXP_READ, reader.bytes) == ParseRead(reader.bytes);
      hide ParseRequest;
      RemembersAll(handles, disk.root);
      var token := reader.String();
      if token.None? { return Some(BAD_MESSAGE); }
      var offset := reader.U64();
      if offset.None? { return Some(BAD_MESSAGE); }
      var wanted := reader.U32();
      if wanted.None? { return Some(BAD_MESSAGE); }
      err := ReadAt(env, disk, id, token.value, offset.value, wanted.value);
    }

    // -------------------------------------------------------------------
    // Removing and renaming
    // -------------------------------------------------------------------

    /** Deletes the entry; handles on files at or below it have lost theirs. */
    method DeleteEntry(env: Env, disk: Disk, path: Path)
      requires Ready(env, disk) && path != [] && Lookup(disk.root, path).Some?
      modifies disk, `lost
      ensures Ready(env, disk) && View(disk) == Deleted(old(View(disk)), path)
    {
      hide EnvOk, TreeOk, Lookup, Removed, OpenBelow;
      lost := lost + OpenBelow(Slots(handles), path);
      disk.Delete(env, path);
    }

    method RemoveAt(env: Env, disk: Disk, id: nat, components: Path) returns (err: Option<Status>)
      requires Ready(env, disk)
      modifies this, disk
      ensures Done(env, disk, ServeRemove(old(View(disk)), id, components), id, err, None)
    {
      hide StatusReply, EnvOk, Text, TreeOk, Deleted, Remembers;
      RemembersAll(handles, disk.root);
      if components == [] { return Some(Failure("Is a directory")); }
      var parent, leaf := components[..|components| - 1], components[|components| - 1];
      assert parent + [leaf] == components;
      var entry := disk.FindEntry(parent, leaf);
      if entry.None? { return Some(NO_SUCH_FILE); }
      if entry.value.Dir? { return Some(Failure("Is a directory")); }
      if entry.value.file.meta.readOnly { return Some(READ_ONLY); }
      DeleteEntry(env, disk, components);
      RemembersAll(handles, disk.root);
      SendStatus(id, OK);
      return None;
    }

    method RmDirAt(env: Env, disk: Disk, id: nat, components: Path) returns (err: Option<Status>)
      requires Ready(env, disk)
      modifies this, disk
      ensures Done(env, disk, ServeRmDir(old(View(disk)), id, components), id, err, None)
    {
      hide StatusReply, EnvOk, Text, TreeOk, Deleted, Remembers;
      RemembersAll(handles, disk.root);
      if components == [] { return Some(Failure("Cannot remove the root")); }
      var parent, leaf := components[..|components| - 1], components[|components| - 1];
      assert parent + [leaf] == components;
      var entry := disk.FindEntry(parent, leaf);
      if entry.None? { return Some(NO_SUCH_FILE); }
      if entry.value.File? { return Some(Failure("Not a directory")); }
      if entry.value.entries != [] { return Some(Failure("Directory not empty")); }
      DeleteEntry(env, disk, components);
      RemembersAll(handles, disk.root);
      SendStatus(id, OK);
      return None;
    }

    method Remove(env: Env, disk: Disk, id: nat, reader: Reader) returns (err: Option<Status>)
      requires Ready(env, disk)
      modifies this, disk, reader
      ensures Handled(env, disk, id, ParseRequest(FXP_REMOVE, old(reader.bytes)), err)
    {
      hide Resolved, StatusReply, ParseRequest, EnvOk, TakePath, ServeRemove, TreeOk, Remembers;
      PathRequests(FXP_REMOVE, reader.bytes);
      RemembersAll(handles, disk.root);
      var path := reader.Path();
      if path.None? { return Some(BAD_MESSAGE); }
      var components := Resolve([], path.value);
      err := RemoveAt(env, disk, id, components);
    }

    method RmDir(env: Env, disk: Disk, id: nat, reader: Reader) returns (err: Option<Status>)
      requires Ready(env, disk)
      modifies this, disk, reader
      ensures Handled(env, disk, id, ParseRequest(FXP_RMDIR, old(reader.bytes)), err)
    {
      hide Resolved, StatusReply, ParseRequest, EnvOk, TakePath, ServeRmDir, TreeOk, Remembers;
      PathRequests(FXP_RMDIR, reader.bytes);
      RemembersAll(handles, disk.root);
      var path := reader.Path();
      if path.None? { return Some(BAD_MESSAGE); }
      var components := Resolve([], path.value);
      err := RmDirAt(env, disk, id, components);
    }

    method RenameAt(env: Env, disk: Disk, id: nat, source: Path, target: Path) returns (err: Option<Status>)
      requires Ready(env, disk)
      modifies this, disk
      ensures Done(env, disk, ServeRename(env, old(View(disk)), id, source, target), id, err, None)
    {
      hide StatusReply, EnvOk, Text, TreeOk, Renamed, Lookup, Inside, SamePath, OpenBelow, Remembers;
      RemembersAll(handles, disk.root);
      if source == [] { return Some(Failure("Cannot rename the root")); }
      if target == [] { return Some(Failure("Invalid target")); }
      if |target| > |source| && Inside(target, source) { return Some(Failure("Cannot move a directory into itself")); }
      assert source[..|source| - 1] + [source[|source| - 1]] == source;
      var entry := disk.FindEntry(source[..|source| - 1], source[|source| - 1]);
      if entry.None? { return Some(NO_SUCH_FILE); }
      var dest := disk.OpenDirPath(target[..|target| - 1]);
      if dest.None? { return Some(NO_SUCH_FILE); }
      var moved := disk.Rename(env, source, target);
      if moved.AlreadyExists? { return Some(Failure("Target exists")); }
      if moved.NameRefused? { return Some(Failure("Rename failed")); }
      lost := lost + OpenBelow(Slots(handles), source);
      RemembersAll(handles, disk.root);
      SendStatus(id, OK);
      return None;
    }

    method Rename(env: Env, disk: Disk, id: nat, reader: Reader) returns (err: Option<Status>)
      requires Ready(env, disk)
      modifies this, disk, reader
      ensures Handled(env, disk, id, ParseRequest(FXP_RENAME, old(reader.bytes)), err)
    {
      hide Resolved, StatusReply, EnvOk, TakePath, ServeRename, TreeOk, Remembers;
      assert ParseRequest(FXP_RENAME, reader.bytes) == ParseRename(reader.bytes);
      hide ParseRequest;
      RemembersAll(handles, disk.root);
      var from := reader.Path();
      if from.None? { return Some(BAD_MESSAGE); }
      var to := reader.Path();
      if to.None? { return Some(BAD_MESSAGE); }
      var source := Resolve([], from.value);
      var target := Resolve([], to.value);
      err := RenameAt(env, disk, id, source, target);
    }

    // -------------------------------------------------------------------
    // Attributes
    // -------------------------------------------------------------------

    method MkDirAt(env: Env, disk: Disk, id: nat, components: Path, attrs: RequestedAttrs) returns (err: Option<Status>)
      requires Ready(env, disk)
      modifies this, disk
      ensures Done(env, disk, ServeMkDir(env, old(View(disk)), id, components, attrs), id, err, None)
    {
      hide StatusReply, EnvOk, Text, TreeOk, Lookup, Added, FindIn, AttrsRefusal, NewMeta, Remembers;
      RemembersAll(handles, disk.root);
      var refusal := AttrsRefusal(env, attrs);
      if refusal.Some? { return refusal; }
      if attrs.size.Some? { return Some(Failure("Directory size cannot be set")); }
      if components == [] { return Some(Failure("Exists")); }
      var parent, leaf := components[..|components| - 1], components[|components| - 1];
      assert parent + [leaf] == components;
      var dir := disk.OpenDirPath(parent);
      if dir.None? { return Some(NO_SUCH_FILE); }
      ghost var root := disk.root;
      var made := disk.CreateDir(env, parent, leaf);
      if made.AlreadyExists? { return Some(Failure("File exists")); }
      if made.NameRefused? { return Some(Failure("Cannot create directory")); }
      NotHeld(root, parent, leaf);
      CreatedThenSet(root, parent, leaf, Dir(env.newMeta, []), NewMeta(env, env.newMeta, attrs));
      ApplyMetadata(env, disk, components, attrs);
      RemembersAll(handles, disk.root);
      SendStatus(id, OK);
      return None;
    }

    method MkDir(env: Env, disk: Disk, id: nat, reader: Reader) returns (err: Option<Status>)
      requires Ready(env, disk)
      modifies this, disk, reader
      ensures Handled(env, disk, id, ParseRequest(FXP_MKDIR, old(reader.bytes)), err)
    {
      hide Resolved, StatusReply, ParseRequest, EnvOk, TakePath, TakeAttrs, ServeMkDir, TreeOk, Remembers;
      AttrsRequests(FXP_MKDIR, reader.bytes);
      RemembersAll(handles, disk.root);
      var path := reader.Path();
      if path.None? { return Some(BAD_MESSAGE); }
      var attrs := reader.Attrs();
      if attrs.None? { return Some(BAD_MESSAGE); }
      var components := Resolve([], path.value);
      err := MkDirAt(env, disk, id, components, attrs.value);
    }

    /** Times, then the read-only bit; the attributes were validated before. */
    method ApplyMetadata(env: Env, disk: Disk, path: Path, attrs: RequestedAttrs)
      requires disk.Valid(env) && path != [] && Lookup(disk.root, path).Some? && AttrsRefusal(env, attrs).None?
      modifies disk`root, disk`touches
      ensures disk.Valid(env)
      ensures var n := Lookup(old(disk.root), path).value;
              disk.root == Put(old(disk.root), path, WithMeta(n, NewMeta(env, MetaOf(n), attrs)))
    {
      hide EnvOk, TreeOk, FatTimeOf, Unwritable;
      ghost var root := disk.root;
      ghost var n := Lookup(root, path).value;
      PutSame(root, path);
      var meta := MetaOf(Lookup(disk.root, path).value);
      if attrs.times.Some? {
        var accessed, modified := FatTimeOf(attrs.times.value.0, env.clock), FatTimeOf(attrs.times.value.1, env.clock);
        meta := meta.(modified := modified.stamp, accessed := accessed.stamp.date);
        disk.SetMeta(env, path, meta);
      }
      if attrs.permissions.Some? {
        var timed := meta;
        meta := meta.(readOnly := Unwritable(attrs.permissions.value));
        disk.SetMeta(env, path, meta);
        PutPut(root, path, WithMeta(n, timed), WithMeta(n, meta));
      }
    }

    // -------------------------------------------------------------------
    // OPEN
    // -------------------------------------------------------------------

    /** An existing file is checked and perhaps truncated. */
    method OpenExisting(env: Env, disk: Disk, path: Path, n: Vol, flags: nat) returns (err: Option<Status>, size: nat)
      requires Ready(env, disk) && path != [] && Lookup(disk.root, path) == Some(n)
      modifies disk`root, disk`touches, `handles
      ensures Ready(env, disk)
      ensures View(disk) == old(View(disk)).(root := disk.root)
      ensures match OpenFound(env, old(disk.root), disk.nextId, path, n, flags)
              case Denied(status) => err == Some(status) && disk.root == old(disk.root) && handles == old(handles)
              case Target(root, nextId) =>
                && err.None? && nextId == disk.nextId && disk.root == root && FileAt(disk.root, path).Some? && size == SizeAt(disk.root, path)
                && Remembers(old(handles), handles, disk.root, if Bit(flags, 2) && Bit(flags, 16) then Some(path) else None)
    {
      hide EnvOk, TreeOk, Text, Bit, Remembers;
      PositiveClusters(env);
      size := 0;
      if n.Dir? { return Some(Failure("Is a directory")), 0; }
      if Bit(flags, 8) && Bit(flags, 32) { return Some(Failure("File exists")), 0; }
      if Bit(flags, 2) && n.file.meta.readOnly { return Some(READ_ONLY), 0; }
      if Bit(flags, 2) && Bit(flags, 16) {
        LookupPut(disk.root, path, File(Shrunk(env.g, n.file, 0)));
        disk.Truncate(env, path, 0);
        ghost var was := handles;
        InvalidateFile(path);
        RemembersForgotten(was, handles, disk.root, path);
        return None, 0;
      }
      RemembersAll(handles, disk.root);
      return None, |n.file.data|;
    }

    /** A new file gets its first attributes. */
    method OpenCreated(env: Env, disk: Disk, parent: Path, leaf: Name, attrs: RequestedAttrs) returns (ok: bool)
      requires Ready(env, disk) && IsDir(disk.root, parent) && Lookup(disk.root, parent + [leaf]).None? && AttrsRefusal(env, attrs).None?
      modifies disk
      ensures Ready(env, disk) && ok == env.nameOk(leaf)
      ensures var f := EmptyFile(env, old(disk.root), parent + [leaf], old(disk.nextId)).(meta := NewMeta(env, env.newMeta, attrs));
              View(disk) == if ok then old(View(disk)).(root := Added(old(disk.root), parent, Entry(leaf, File(f))), nextId := old(disk.nextId) + 1)
                            else old(View(disk))
      ensures ok ==> FileAt(disk.root, parent + [leaf]).Some? && SizeAt(disk.root, parent + [leaf]) == 0
    {
      hide EnvOk, TreeOk, Lookup, Added, NewMeta, FindIn, AttrsRefusal;
      NotHeld(disk.root, parent, leaf);
      ghost var root := disk.root;
      ghost var meta := NewMeta(env, env.newMeta, attrs);
      ghost var empty := EmptyFile(env, root, parent + [leaf], disk.nextId);
      var made := disk.CreateFile(env, parent, leaf);
      ok := made.Made?;
      if ok {
        CreatedThenSet(root, parent, leaf, File(empty), meta);
        ApplyMetadata(env, disk, parent + [leaf], attrs);
        LookupAddedEntry(root, parent, Entry(leaf, File(empty.(meta := meta))));
      }
    }

    /** The new handle, after the target has been opened in `before`. */
    method OpenHandle(env: Env, disk: Disk, id: nat, parent: Path, leaf: Name, flags: nat, size: nat, ghost was: seq<Handle>, ghost rewritten: Option<Path>)
        returns (err: Option<Status>)
      requires Ready(env, disk) && size == SizeAt(disk.root, parent + [leaf])
      requires Remembers(was, handles, disk.root, rewritten) && Slots(was) == Slots(handles)
      modifies this
      ensures var s := OpenedReply(old(View(disk)), id, parent, leaf, flags);
              View(disk) == s.core && Answer(id, err, out) == s.out
      ensures input == old(input) && cardBudget == old(cardBudget) && disk.Valid(env) && Tidy() && JobCache() == NO_CACHE && CurrentMode().Idle?
      ensures Remembers(was, handles, disk.root, rewritten)
    {
      hide StatusReply, HandleReply, EnvOk, Allocated, TreeOk, Text, Lookup, Bit, Remembers, SizeAt;
      var writable := Bit(flags, 2);
      var file := FileHandle(parent, leaf, Bit(flags, 1) || !writable, writable, Bit(flags, 4), Cache(size, None, None));
      ghost var now := handles;
      var slot := Allocate(disk, OpenFile(file));
      if slot.None? { return Some(Failure("Too many open handles")); }
      SameClosed(was, now, slot.value);
      RemembersNew(was, now, disk.root, rewritten, slot.value, file);
      SendHandle(id, slot.value);
      return None;
    }

    method OpenAt(env: Env, disk: Disk, id: nat, components: Path, flags: nat, attrs: RequestedAttrs) returns (err: Option<Status>)
      requires Ready(env, disk)
      modifies this, disk
      ensures Done(env, disk, ServeOpen(env, old(View(disk)), id, components, flags, attrs), id, err,
                   if Truncates(env, old(disk.root), components, flags, attrs) then Some(components) else None)
    {
      hide StatusReply, EnvOk, TreeOk, Text, Lookup, Bit, AttrsRefusal, NewMeta, Added, OpenFound, OpenedReply, Remembers, Truncates, SizeAt;
      RemembersAll(handles, disk.root);
      WhenTruncated(env, disk.root, components, flags, attrs);
      var refusal := AttrsRefusal(env, attrs);
      if refusal.Some? { return refusal; }
      if components == [] { return Some(Failure("Is a directory")); }
      var parent, leaf := components[..|components| - 1], components[|components| - 1];
      assert parent + [leaf] == components;
      var dir := disk.OpenDirPath(parent);
      if dir.None? {
        NoFileThere(disk.root, parent, leaf);
        return Some(NO_SUCH_FILE);
      }
      ghost var was, rewritten := handles, if Truncates(env, disk.root, components, flags, attrs) then Some(components) else None;
      var entry := disk.FindEntry(parent, leaf);
      var size := 0;
      if entry.Some? {
        TruncatesOpened(env, disk.root, disk.nextId, components, flags, attrs);
        err, size := OpenExisting(env, disk, components, entry.value, flags);
        if err.Some? { return; }
      } else {
        if !(Bit(flags, 2) && Bit(flags, 8)) { return Some(NO_SUCH_FILE); }
        var ok := OpenCreated(env, disk, parent, leaf, attrs);
        if !ok { return Some(Failure("Cannot create file")); }
        RemembersAll(handles, disk.root);
      }
      err := OpenHandle(env, disk, id, parent, leaf, flags, size, was, rewritten);
    }

    method Open(env: Env, disk: Disk, id: nat, reader: Reader) returns (err: Option<Status>)
      requires Ready(env, disk)
      modifies this, disk, reader
      ensures Handled(env, disk, id, ParseRequest(FXP_OPEN, old(reader.bytes)), err)
    {
      hide Resolved, StatusReply, EnvOk, TakePath, TakeU32, TakeAttrs, ServeOpen, TreeOk, Remembers, Truncates;
      assert ParseRequest(FXP_OPEN, reader.bytes) == ParseOpen(reader.bytes);
      hide ParseRequest;
      RemembersAll(handles, disk.root);
      var path := reader.Path();
      if path.None? { return Some(BAD_MESSAGE); }
      var flags := reader.U32();
      if flags.None? { return Some(BAD_MESSAGE); }
      var attrs := reader.Attrs();
      if attrs.None? { return Some(BAD_MESSAGE); }
      var components := Resolve([], path.value);
      err := OpenAt(env, disk, id, components, flags.value, attrs.value);
    }

    // -------------------------------------------------------------------
    // SETSTAT
    // -------------------------------------------------------------------

    /** Shrinks the file if asked to, sets its attributes, and makes every handle on it forget where it was. */
    method Settle(env: Env, disk: Disk, components: Path, n: Vol, attrs: RequestedAttrs)
      requires Ready(env, disk) && components != [] && Lookup(disk.root, components) == Some(n) && AttrsRefusal(env, attrs).None?
      requires attrs.size.Some? ==> n.File? && attrs.size.value <= |n.file.data|
      modifies disk`root, disk`touches, `handles
      ensures Ready(env, disk) && View(disk) == old(View(disk)).(root := Put(old(disk.root), components, Settled(env, n, attrs)))
      ensures Remembers(old(handles), handles, disk.root, Some(components))
    {
      hide EnvOk, TreeOk, NewMeta, AttrsRefusal, Shrunk, Lookup, Put, WithMeta, Remembers;
      PositiveClusters(env);
      ghost var root, was := disk.root, handles;
      CutThenSet(env, root, components, n, attrs);
      if attrs.size.Some? && attrs.size.value < |n.file.data| {
        disk.Truncate(env, components, attrs.size.value);
      }
      ApplyMetadata(env, disk, components, attrs);
      InvalidateFile(components);
      RemembersForgotten(was, handles, disk.root, components);
    }

    method StartResize(env: Env, disk: Disk, id: nat, parent: Path, leaf: Name, attrs: RequestedAttrs, size: nat)
      requires Ready(env, disk) && size == SizeAt(disk.root, parent + [leaf])
      modifies `resize
      ensures Done(env, disk, Served(old(View(disk)).(mode := Growing(Growth(id, parent + [leaf], attrs))), []), id, None, None)
    {
      hide EnvOk, TreeOk, Remembers, SizeAt;
      RemembersAll(handles, disk.root);
      resize := Some(ResizeJob(id, parent + [leaf], attrs, FileHandle(parent, leaf, false, true, false, Cache(size, None, None))));
    }

    method ApplySetStat(env: Env, disk: Disk, id: nat, components: Path, attrs: RequestedAttrs) returns (err: Option<Status>)
      requires Ready(env, disk)
      modifies this, disk
      ensures Done(env, disk, ServeSetStat(env, old(View(disk)), id, components, attrs), id, err,
                   if Settles(env, old(disk.root), components, attrs) then Some(components) else None)
    {
      hide StatusReply, EnvOk, TreeOk, Text, Lookup, AttrsRefusal, Settled, Remembers;
      RemembersAll(handles, disk.root);
      var refusal := AttrsRefusal(env, attrs);
      if refusal.Some? { return refusal; }
      if components == [] { return Some(Status(FX_OP_UNSUPPORTED, Text("Root metadata cannot be changed"))); }
      var parent, leaf := components[..|components| - 1], components[|components| - 1];
      assert parent + [leaf] == components;
      var entry := disk.FindEntry(parent, leaf);
      if entry.None? { return Some(NO_SUCH_FILE); }
      var n := entry.value;
      if attrs.size.Some? {
        if n.Dir? { return Some(Failure("Cannot resize a directory")); }
        if attrs.size.value != SizeOf(n) && MetaOf(n).readOnly { return Some(READ_ONLY); }
        if attrs.size.value > SizeOf(n) {
          StartResize(env, disk, id, parent, leaf, attrs, SizeOf(n));
          return None;
        }
      }
      Settle(env, disk, components, n, attrs);
      SendStatus(id, OK);
      return None;
    }

    method SetStat(env: Env, disk: Disk, id: nat, reader: Reader) returns (err: Option<Status>)
      requires Ready(env, disk)
      modifies this, disk, reader
      ensures Handled(env, disk, id, ParseRequest(FXP_SETSTAT, old(reader.bytes)), err)
    {
      hide Resolved, StatusReply, ParseRequest, EnvOk, TakePath, TakeAttrs, ServeSetStat, TreeOk, Remembers, Settles;
      AttrsRequests(FXP_SETSTAT, reader.bytes);
      RemembersAll(handles, disk.root);
      var path := reader.Path();
      if path.None? { return Some(BAD_MESSAGE); }
      var attrs := reader.Attrs();
      if attrs.None? { return Some(BAD_MESSAGE); }
      var components := Resolve([], path.value);
      err := ApplySetStat(env, disk, id, components, attrs.value);
    }

    method FSetStatAt(env: Env, disk: Disk, id: nat, token: Token, attrs: RequestedAttrs) returns (err: Option<Status>)
      requires Ready(env, disk)
      modifies this, disk
      ensures Done(env, disk, ServeFSetStat(env, old(View(disk)), id, token, attrs), id, err, Rewritten(env, old(View(disk)), Request.FSetStat(token, attrs)))
    {
      hide StatusReply, EnvOk, TreeOk, Text, SftpModel.SlotOf, ServeSetStat, Remembers, Settles;
      RemembersAll(handles, disk.root);
      var slot := SlotOf(disk, token);
      if slot.None? { return Some(INVALID_HANDLE); }
      var handle := handles[slot.value];
      if attrs.size.Some? {
        if !handle.OpenFile? { return Some(Failure("Not a file handle")); }
        if !handle.file.writable { return Some(Status(FX_PERMISSION_DENIED, Text("Handle not open for writing"))); }
      }
      err := ApplySetStat(env, disk, id, PathOf(SlotOfHandle(handle)), attrs);
    }

    method FSetStat(env: Env, disk: Disk, id: nat, reader: Reader) returns (err: Option<Status>)
      requires Ready(env, disk)
      modifies this, disk, reader
      ensures Handled(env, disk, id, ParseRequest(FXP_FSETSTAT, old(reader.bytes)), err)
    {
      hide StatusReply, EnvOk, TakeString, TakeAttrs, ServeFSetStat, TreeOk, Remembers, Settles, MaySettle, HandlePath;
      assert ParseRequest(FXP_FSETSTAT, reader.bytes) == ParseFSetStat(reader.bytes);
      hide ParseRequest;
      RemembersAll(handles, disk.root);
      var token := reader.String();
      if token.None? { return Some(BAD_MESSAGE); }
      var attrs := reader.Attrs();
      if attrs.None? { return Some(BAD_MESSAGE); }
      err := FSetStatAt(env, disk, id, token.value, attrs.value);
    }

    // -------------------------------------------------------------------
    // OpenSSH extensions
    // -------------------------------------------------------------------

    method FSync(env: Env, disk: Disk, id: nat, reader: Reader) returns (err: Option<Status>)
      requires Ready(env, disk)
      modifies this, reader
      ensures var c, token := old(View(disk)), TakeString(old(reader.bytes));
              Done(env, disk, if token.Got? then ServeFSync(c, id, token.value) else Refuse(c, id, BAD_MESSAGE), id, err, None)
    {
      hide StatusReply, EnvOk, TreeOk, Text, SftpModel.SlotOf, TakeString, Remembers;
      RemembersAll(handles, disk.root);
      var token := reader.String();
      if token.None? { return Some(BAD_MESSAGE); }
      var slot := SlotOf(disk, token.value);
      if slot.None? { return Some(INVALID_HANDLE); }
      if !handles[slot.value].OpenFile? { return Some(Failure("Not a file handle")); }
      SendStatus(id, OK);
      return None;
    }

    method StatVfs(env: Env, disk: Disk, id: nat, components: Path) returns (err: Option<Status>)
      requires Ready(env, disk)
      modifies this, disk`touches
      ensures Done(env, disk, ServeStatVfs(env, old(View(disk)), id, components), id, err, None)
    {
      hide StatusReply, EnvOk, TreeOk, Text, Lookup, WordsReply, VolumeWords, Remembers;
      RemembersAll(handles, disk.root);
      if components != [] {
        var parent, leaf := components[..|components| - 1], components[|components| - 1];
        assert parent + [leaf] == components;
        var entry := disk.FindEntry(parent, leaf);
        if entry.None? { return Some(NO_SUCH_FILE); }
      }
      var free := env.freeClusters(disk.root);
      if free.None? { return Some(FREE_UNKNOWN); }
      if free.value > env.totalClusters { return Some(Failure("Invalid FAT free-space count")); }
      SendWords(id, VolumeWords(env, free.value));
      return None;
    }

    method PathStatVfs(env: Env, disk: Disk, id: nat, reader: Reader) returns (err: Option<Status>)
      requires Ready(env, disk)
      modifies this, disk`touches, reader
      ensures var c, path := old(View(disk)), TakePath(old(reader.bytes));
              Done(env, disk, if path.Got? then ServeStatVfs(env, c, id, Resolved([], path.value)) else Refuse(c, id, BAD_MESSAGE), id, err, None)
    {
      hide StatusReply, EnvOk, TreeOk, Text, TakePath, Resolved, ServeStatVfs, Remembers;
      RemembersAll(handles, disk.root);
      var path := reader.Path();
      if path.None? { return Some(BAD_MESSAGE); }
      var components := Resolve([], path.value);
      err := StatVfs(env, disk, id, components);
    }

    method FStatVfs(env: Env, disk: Disk, id: nat, reader: Reader) returns (err: Option<Status>)
      requires Ready(env, disk)
      modifies this, disk`touches, reader
      ensures var c, token := old(View(disk)), TakeString(old(reader.bytes));
              Done(env, disk, if token.Got? then ServeFStatVfs(env, c, id, token.value) else Refuse(c, id, BAD_MESSAGE), id, err, None)
    {
      hide StatusReply, EnvOk, TreeOk, Text, SftpModel.SlotOf, ServeStatVfs, TakeString, Remembers;
      RemembersAll(handles, disk.root);
      var token := reader.String();
      if token.None? { return Some(BAD_MESSAGE); }
      var slot := SlotOf(disk, token.value);
      if slot.None? { return Some(INVALID_HANDLE); }
      err := StatVfs(env, disk, id, PathOf(SlotOfHandle(handles[slot.value])));
    }

    method Extended(env: Env, disk: Disk, id: nat, reader: Reader) returns (err: Option<Status>)
      requires Ready(env, disk)
      modifies this, disk`touches, reader
      ensures Handled(env, disk, id, ParseRequest(FXP_EXTENDED, old(reader.bytes)), err)
    {
      hide StatusReply, EnvOk, TakePath, TakeString, ServeFSync, ServeStatVfs, ServeFStatVfs, TreeOk, WordsReply, Text, Remembers, Resolved,
           ParseRequest, Serve, Rewritten;
      ExtendedServes(env, View(disk), id, reader.bytes);
      RemembersAll(handles, disk.root);
      var name := reader.String();
      if name.None? { return Some(BAD_MESSAGE); }
      if name.value == Text("limits@openssh.com") {
        SendWords(id, LIMITS);
        return None;
      }
      if name.value == Text("fsync@openssh.com") {
        err := FSync(env, disk, id, reader);
      } else if name.value == Text("statvfs@openssh.com") {
        err := PathStatVfs(env, disk, id, reader);
      } else if name.value == Text("fstatvfs@openssh.com") {
        err := FStatVfs(env, disk, id, reader);
      } else {
        return Some(NO_EXTENSION);
      }
    }

    // -------------------------------------------------------------------
    // Dispatch
    // -------------------------------------------------------------------

    method HandleRequest(env: Env, disk: Disk, kind: Byte, id: nat, reader: Reader) returns (err: Option<Status>)
      requires Ready(env, disk)
      modifies this, disk, reader
      ensures Handled(env, disk, id, ParseRequest(kind, old(reader.bytes)), err)
    {
      hide Ready, Handled, EnvOk, ParseRequest;
      if kind == FXP_REALPATH { err := RealPath(env, disk, id, reader); }
      else if kind == FXP_STAT || kind == FXP_LSTAT { err := StatPath(env, disk, kind, id, reader); }
      else if kind == FXP_FSTAT { err := FStat(env, disk, id, reader); }
      else if kind == FXP_OPENDIR { err := OpenDir(env, disk, id, reader); }
      else if kind == FXP_READDIR { err := ReadDir(env, disk, id, reader); }
      else if kind == FXP_OPEN { err := Open(env, disk, id, reader); }
      else if kind == FXP_CLOSE { err := Close(env, disk, id, reader); }
      else if kind == FXP_READ { err := Read(env, disk, id, reader); }
      else if kind == FXP_REMOVE { err := Remove(env, disk, id, reader); }
      else if kind == FXP_MKDIR { err := MkDir(env, disk, id, reader); }
      else if kind == FXP_RMDIR { err := RmDir(env, disk, id, reader); }
      else if kind == FXP_RENAME { err := Rename(env, disk, id, reader); }
      else if kind == FXP_SETSTAT { err := SetStat(env, disk, id, reader); }
      else if kind == FXP_FSETSTAT { err := FSetStat(env, disk, id, reader); }
      else if kind == FXP_EXTENDED { err := Extended(env, disk, id, reader); }
      else { err := Unknown(env, disk, kind, id, reader); }
    }

    method Unknown(env: Env, disk: Disk, kind: Byte, id: nat, reader: Reader) returns (err: Option<Status>)
      requires Ready(env, disk) && !KnownKind(kind)
      modifies this
      ensures Handled(env, disk, id, ParseRequest(kind, old(reader.bytes)), err)
    {
      hide EnvOk, TreeOk, StatusReply, Remembers;
      assert ParseRequest(kind, reader.bytes).Unsupported?;
      RemembersAll(handles, disk.root);
      return Some(UNSUPPORTED);
    }

    method HandlePacket(env: Env, disk: Disk, kind: Byte, body: seq<Byte>)
      requires Ready(env, disk)
      modifies this, disk
      ensures var s := Dispatch(env, old(View(disk)), kind, body);
              View(disk) == s.core && out == s.out && JobCache() == JobAfter(s.core)
      ensures Remembers(old(handles), handles, disk.root, PacketRewrites(env, old(View(disk)), kind, body))
      ensures input == old(input) && cardBudget == old(cardBudget) && disk.Valid(env) && Tidy()
    {
      hide EnvOk, TreeOk, Serve, ParseRequest, Rewritten, VersionReply, StatusReply, Remembers;
      RemembersAll(handles, disk.root);
      if kind == FXP_INIT {
        SendVersion();
        return;
      }
      var reader := new Reader(body);
      var id := reader.U32();
      if id.None? {
        fatal := true;
        return;
      }
      var err := HandleRequest(env, disk, kind, id.value, reader);
      if err.Some? { SendStatus(id.value, err.value); }
    }

    // -------------------------------------------------------------------
    // Streams
    // -------------------------------------------------------------------

    /** One unit of work was done. */
    twostate predicate OneUnit(env: Env, disk: Disk)
      requires EnvOk(env)
      reads this, disk
    {
      Busy(env, old(Conf(disk))) && Conf(disk) == Then(env, old(Conf(disk)))
    }

    /** The handles are those there were, and a stream that goes on keeps its slot and its request. */
    twostate predicate StreamHeld()
      reads this
    {
      && Slots(handles) == old(Slots(handles)) && tokens == old(tokens) && generation == old(generation) && lost == old(lost)
      && (readStream.Some? && old(readStream).Some? ==> readStream.value.slot == old(readStream).value.slot)
      && (writeStream.Some? && old(writeStream).Some? ==>
            writeStream.value.slot == old(writeStream).value.slot && writeStream.value.id == old(writeStream).value.id)
    }

    /** Reads through the handle in `slot` and remembers where that stopped. */
    method Fetch(env: Env, disk: Disk, slot: nat, offset: nat, count: nat) returns (bytes: Option<seq<Byte>>)
      requires disk.Valid(env) && slot < |handles| && handles[slot].OpenFile?
      modifies `handles, disk`touches
      ensures var r := ReadOutcome(env, disk.root, PathOf(old(Slots(handles))[slot]), old(Caches(handles))[slot], offset, count);
              bytes == r.bytes && Slots(handles) == old(Slots(handles)) && Caches(handles) == old(Caches(handles))[slot := r.cache]
    {
      hide EnvOk, TreeOk, ReadOutcome;
      var after;
      bytes, after := ReadChunk(env, disk, handles[slot].file, offset, count);
      SlotsWith(handles, slot, OpenFile(after));
      SameSlot(handles, slot, OpenFile(after));
      handles := handles[slot := OpenFile(after)];
    }

    /** One chunk of a DATA reply. A failure inside it ends the session. */
    method ContinueRead(env: Env, disk: Disk)
      requires Valid(env, disk) && CurrentMode().Reading? && out == []
      modifies `out, `readStream, `handles, `fatal, disk`touches
      ensures Valid(env, disk) && OneUnit(env, disk) && StreamHeld()
    {
      hide EnvOk, TreeOk, ReadOutcome, PathOf, MachineOk, Micro, Then, Busy;
      var stream := readStream.value;
      SlotsInRange(env, Mach(disk));
      ReadMoves(env, Conf(disk));
      ReadFits(env, Mach(disk));
      readStream := None;
      var bytes := Fetch(env, disk, stream.slot, stream.offset, Min(stream.remaining, IO_CHUNK));
      if bytes.None? || bytes.value == [] {
        fatal := true;
        return;
      }
      out := out + bytes.value;
      var left := stream.remaining - |bytes.value|;
      if left > 0 { readStream := Some(ReadStream(stream.slot, stream.offset + |bytes.value|, left)); }
    }

    /** Whether a WRITE may store its payload, and through which slot. */
    method ValidateWrite(ghost disk: Disk, token: Token, offset: nat, length: nat) returns (check: Check)
      requires |tokens| == MAX_HANDLES && |handles| == MAX_HANDLES
      ensures check == CheckWrite(View(disk), token, offset, length)
    {
      hide SftpModel.SlotOf, Text;
      var slot := SlotOf(disk, token);
      if slot.None? { return Fail(INVALID_HANDLE); }
      if !handles[slot.value].OpenFile? { return Fail(Failure("Not a file handle")); }
      if !handles[slot.value].file.writable { return Fail(Failure("Handle not open for writing")); }
      if offset + length > U32_TOP { return Fail(TOO_LARGE); }
      return Pass(slot.value);
    }

    /** The fixed part of a WRITE: its payload is stored as it arrives. */
    method BeginWrite(disk: Disk, length: nat) returns (did: bool)
      requires Tidy() && CurrentMode().Idle? && out == []
      modifies `input, `writeStream, `fatal
      ensures Tidy()
      ensures var u := SftpStream.BeginWrite(old(View(disk)), old(input), length);
              if u.Stuck? then !did && !fatal && View(disk) == old(View(disk)) && input == old(input)
              else View(disk) == u.core && u.out == [] && input == old(input)[u.used..] && did == !fatal
    {
      hide CheckWrite, FromBe32, WrapUsize;
      if |input| < 13 { return false; }
      var handleLen := FromBe32(input[9..13]);
      var header := 13 + handleLen + 12;
      if handleLen > 64 {
        fatal := true;
        return false;
      }
      if |input| < header { return false; }
      WriteHeaderFields(input, handleLen);
      var fields := input[5..header];
      input := input[header..];
      var id, token, offset, dataLen := ParseWriteHeader(fields);
      if length != WrapUsize(header - 4 + dataLen) {
        fatal := true;
        return false;
      }
      StartWrite(disk, id, token, offset, dataLen);
      return true;
    }

    /** The payload is stored, or dropped if the WRITE is refused already. */
    method StartWrite(ghost disk: Disk, id: nat, token: Token, offset: nat, length: nat)
      requires Tidy() && CurrentMode().Idle?
      modifies `writeStream
      ensures Tidy() && writeStream.Some?
      ensures writeStream.value == match CheckWrite(old(View(disk)), token, offset, length)
                                   case Pass(slot) => WriteStream(id, slot, length, offset, None)
                                   case Fail(status) => WriteStream(id, 0, length, offset, Some(status))
    {
      hide CheckWrite;
      var check := ValidateWrite(disk, token, offset, length);
      match check {
        case Pass(slot) => writeStream := Some(WriteStream(id, slot, length, offset, None));
        case Fail(status) => writeStream := Some(WriteStream(id, 0, length, offset, Some(status)));
      }
    }

    /** A request too long to be parsed: its id is answered and what is there of it dropped. */
    method RejectOversized(disk: Disk, length: nat)
      requires Tidy() && CurrentMode().Idle? && out == [] && |input| >= 9
      modifies `input, `out, `skip
      ensures Tidy() && out == StatusReply(FromBe32(old(input)[5..9]), REQUEST_TOO_LARGE)
      ensures var whole := WrapUsize(4 + length);
              var have := Min(|old(input)|, whole);
              input == old(input)[have..] && View(disk) == old(View(disk)).(mode := Skipped(whole - have))
    {
      hide FromBe32, StatusReply, WrapUsize;
      var id := FromBe32(input[5..9]);
      SendStatus(id, REQUEST_TOO_LARGE);
      var whole := WrapUsize(4 + length);
      var have := Min(|input|, whole);
      input := input[have..];
      skip := whole - have;
    }

    /** A complete request. */
    method ServePacket(env: Env, disk: Disk, length: nat)
      requires Valid(env, disk) && CurrentMode().Idle? && out == [] && 0 < length && 4 + length <= |input|
      modifies this, disk
      ensures disk.Valid(env) && Tidy() && !cardBudget
      ensures var served := OnPacket(env, old(Mach(disk)), old(input)[4], old(input)[5..4 + length]);
              Mach(disk) == served.0 && out == served.1 && input == old(input)[4 + length..]
    {
      hide EnvOk, TreeOk, Dispatch, PacketRewrites, MachineOk;
      ghost var c := View(disk);
      MachineWf(env, Mach(disk));
      DispatchSlots(env, c, input[4], input[5..4 + length]);
      cardBudget := false;
      var packet := input[..4 + length];
      input := input[4 + length..];
      assert packet[5..] == old(input)[5..4 + length];
      HandlePacket(env, disk, packet[4], packet[5..]);
    }

    /** A step that found nothing to do changed nothing. */
    twostate predicate Idled(disk: Disk)
      reads this, disk
    {
      Conf(disk) == old(Conf(disk)) && cardBudget == old(cardBudget)
    }

    /** The state after `n` units of work. */
    twostate predicate Progressed(env: Env, disk: Disk, new n: nat)
      requires EnvOk(env)
      reads this, disk
    {
      Reaches(env, old(Conf(disk)), n, Conf(disk))
    }

    method ParseWrite(env: Env, disk: Disk, length: nat) returns (did: bool, ghost n: nat)
      requires Valid(env, disk) && CurrentMode().Idle? && out == []
      requires |input| >= 5 && input[4] == FXP_WRITE && length == FromBe32(input[..4]) && length > 0
      modifies `input, `writeStream, `fatal
      ensures Valid(env, disk) && Progressed(env, disk, n)
      ensures did ==> n > 0
      ensures !did && !fatal ==> n == 0 && Idled(disk) && !Busy(env, Conf(disk))
    {
      hide EnvOk, TreeOk, JobOk, Wf, SftpStream.BeginWrite, FromBe32, Reaches;
      ghost var g := Conf(disk);
      did := BeginWrite(disk, length);
      n := if SftpStream.BeginWrite(g.machine.core, g.rest, length).Worked? then 1 else 0;
      if n == 1 {
        OnParseOk(env, g.machine, g.rest);
        assert Conf(disk) == Then(env, g);
        ReachesOne(env, g);
      } else {
        ReachesNone(env, g);
      }
    }

    method ParseOversized(env: Env, disk: Disk, length: nat) returns (did: bool, ghost n: nat)
      requires Valid(env, disk) && CurrentMode().Idle? && out == []
      requires |input| >= 5 && input[4] != FXP_WRITE && length == FromBe32(input[..4]) && length > MAX_REQUEST
      modifies `input, `out, `skip
      ensures Valid(env, disk) && Progressed(env, disk, n)
      ensures did ==> n > 0
      ensures !did && !fatal ==> n == 0 && Idled(disk) && !Busy(env, Conf(disk))
    {
      hide EnvOk, TreeOk, JobOk, Wf, FromBe32, Reaches, StatusReply, WrapUsize;
      ghost var g := Conf(disk);
      n := 0;
      if |input| < 9 {
        ReachesNone(env, g);
        return false, 0;
      }
      RejectOversized(disk, length);
      ghost var have := Min(|g.rest|, WrapUsize(4 + length));
      OnParseOk(env, g.machine, g.rest);
      ReachesOne(env, g);
      assert g.rest[0..] == g.rest;
      assert [] + out == out;
      SkipsTo(env, Then(env, g), have);
      n := 1 + have;
      assert Then(env, g).rest == g.rest && Then(env, g).out == out;
      assert Reaches(env, Then(env, g), have, Conf(disk));
      ReachesMore(env, g, 1, Then(env, g), have, Conf(disk));
      ReachesOk(env, g, n, Conf(disk));
      StatusLength(FromBe32(g.rest[5..9]), REQUEST_TOO_LARGE);
      return true, n;
    }

    /** `parse_next`: the next request, or the fixed part of a WRITE, or an oversized one. */
    method ParseNext(env: Env, disk: Disk) returns (did: bool, ghost n: nat)
      requires Valid(env, disk) && CurrentMode().Idle? && out == []
      modifies this, disk
      ensures Valid(env, disk) && Progressed(env, disk, n)
      ensures did ==> n > 0
      ensures !did && !fatal ==> n == 0 && Idled(disk)
      ensures !did && !fatal && cardBudget ==> !Busy(env, Conf(disk))
      ensures disk.touches != old(disk.touches) ==> old(cardBudget) && !cardBudget
      ensures cardBudget ==> old(cardBudget)
    {
      hide EnvOk, TreeOk, JobOk, Wf, SftpStream.BeginWrite, Dispatch, FromBe32, Reaches, StatusReply, WrapUsize, PacketRewrites, OnPacket;
      ghost var g := Conf(disk);
      ReachesNone(env, g);
      n := 0;
      if |input| < 5 { return false, 0; }
      var length := FromBe32(input[..4]);
      var kind := input[4];
      if length == 0 {
        OnParseOk(env, g.machine, g.rest);
        ReachesOne(env, g);
        assert input[0..] == input;
        fatal := true;
        assert Conf(disk) == Then(env, g);
        return false, 1;
      }
      if kind == FXP_WRITE {
        did, n := ParseWrite(env, disk, length);
        return;
      }
      if length > MAX_REQUEST {
        did, n := ParseOversized(env, disk, length);
        return;
      }
      if |input| < 4 + length { return false, 0; }
      if !cardBudget { return false, 0; }
      OnParseOk(env, g.machine, g.rest);
      ReachesOne(env, g);
      PacketFits(env, g.machine, kind, input[5..4 + length]);
      ServePacket(env, disk, length);
      assert Conf(disk) == Then(env, g);
      return true, 1;
    }

    // -------------------------------------------------------------------
    // WRITE payloads
    // -------------------------------------------------------------------

    /** After a write through `slot` it forgets where it last read, and others on the file forget everything. */
    method InvalidateWritten(slot: nat)
      requires slot < |handles| && handles[slot].OpenFile?
      modifies `handles
      ensures Slots(handles) == old(Slots(handles))
      ensures Caches(handles) == AfterWrite(old(Slots(handles)), old(Caches(handles)), slot, old(Caches(handles))[slot])
    {
      hide SamePath;
      ghost var was := handles;
      var written := handles[slot].file;
      var kept := OpenFile(written.(cache := written.cache.(readAt := None)));
      SameSlot(handles, slot, kept);
      handles := handles[slot := kept];
      for i := 0 to |handles|
        invariant |handles| == |was| && Slots(handles) == Slots(was) && handles[slot] == kept
        invariant forall k :: i <= k < |handles| && k != slot ==> handles[k] == was[k]
        invariant forall k :: 0 <= k < i && k != slot ==> CacheOf(handles[k]) == Forget(Slots(was), Caches(was), FilePath(written))[k]
      {
        if i != slot && handles[i].OpenFile? && SamePath(FilePath(handles[i].file), FilePath(written)) {
          var forgetful := OpenFile(handles[i].file.(cache := Forgotten(handles[i].file.cache)));
          SameSlot(handles, i, forgetful);
          handles := handles[i := forgetful];
        }
      }
    }

    /** One card write through the handle in `slot`; other handles on the file forget their positions. */
    method WriteThrough(env: Env, disk: Disk, slot: nat, offset: nat, data: seq<Byte>) returns (err: Option<Status>)
      requires disk.Valid(env) && slot < |handles| && handles[slot].OpenFile?
      modifies `handles, disk`root, disk`touches
      ensures disk.Valid(env) && Slots(handles) == old(Slots(handles))
      ensures var r := WriteOutcome(env, old(disk.root), PathOf(old(Slots(handles))[slot]), old(Caches(handles))[slot], offset, data);
              && err == r.err && disk.root == r.root
              && Caches(handles) == if r.err.Some? then old(Caches(handles))[slot := r.cache]
                                    else AfterWrite(old(Slots(handles)), old(Caches(handles)), slot, r.cache)
    {
      hide EnvOk, TreeOk, WriteOutcome, Forget;
      ghost var was := handles;
      var file := handles[slot].file;
      var after;
      err, after := WriteChunk(env, disk, file, offset, data);
      SlotsWith(handles, slot, OpenFile(after));
      SameSlot(handles, slot, OpenFile(after));
      handles := handles[slot := OpenFile(after)];
      if err.None? {
        ForgetAt(Slots(was), Caches(was), slot, after.cache);
        InvalidateWritten(slot);
      }
    }

    /** One chunk of payload to the card, or zeros for part of the gap before it; false if the payload has to stay queued. */
    method TakeChunk(env: Env, disk: Disk, count: nat) returns (taken: bool)
      requires Valid(env, disk) && CurrentMode().Writing? && writeStream.value.failed.None?
      requires 0 < count <= writeStream.value.remaining && count <= |input|
      modifies `handles, `writeStream, disk`root, disk`touches
      ensures disk.Valid(env) && Tidy() && StreamHeld()
      ensures var a := OnChunk(env, old(Mach(disk)), input[..count]);
              Mach(disk) == a.machine && a.used == if taken then count else 0
    {
      hide EnvOk, TreeOk, Wf, JobOk, WriteOutcome, Lookup, AfterWrite;
      SlotsInRange(env, Mach(disk));
      var stream := writeStream.value;
      var file := handles[stream.slot].file;
      var entry := disk.FindEntry(file.parent, file.leaf);
      if entry.None? {
        writeStream := Some(stream.(failed := Some(NO_SUCH_FILE)));
        return false;
      }
      var offset := if file.appendMode then SizeOf(entry.value) else stream.offset;
      var err;
      if offset > SizeOf(entry.value) {
        err := WriteThrough(env, disk, stream.slot, SizeOf(entry.value), Zeros(Min(offset - SizeOf(entry.value), WRITE_CHUNK)));
        if err.Some? { writeStream := Some(stream.(failed := err)); }
        return false;
      }
      err := WriteThrough(env, disk, stream.slot, offset, input[..count]);
      var left := stream.remaining - count;
      writeStream := Some(if err.Some? then stream.(failed := err, remaining := left) else stream.(offset := stream.offset + count, remaining := left));
      return true;
    }

    /** The reply to a WRITE whose payload is used up. */
    method FinishWrite(env: Env, disk: Disk)
      requires Valid(env, disk) && CurrentMode().Writing? && writeStream.value.remaining == 0 && out == []
      modifies `out, `writeStream
      ensures Valid(env, disk) && OneUnit(env, disk) && writeStream.None?
    {
      hide EnvOk, TreeOk, Wf, JobOk, StatusReply;
      var stream := writeStream.value;
      OnWriteOk(env, Mach(disk), input);
      var status := if stream.failed.Some? then stream.failed.value else OK;
      StatusLength(stream.id, status);
      assert input[0..] == input;
      writeStream := None;
      SendStatus(stream.id, status);
    }

    /** Payload of a WRITE that failed is dropped as it arrives. */
    method DropChunk(env: Env, disk: Disk, count: nat)
      requires Valid(env, disk) && CurrentMode().Writing? && writeStream.value.failed.Some? && writeStream.value.remaining > 0 && out == []
      requires count == Min(writeStream.value.remaining, WRITE_CHUNK) && count <= |input|
      modifies `input, `writeStream
      ensures Valid(env, disk) && OneUnit(env, disk) && CurrentMode().Writing? && StreamHeld()
    {
      hide EnvOk, TreeOk, Wf, JobOk, OnChunk;
      OnWriteOk(env, Mach(disk), input);
      var stream := writeStream.value;
      writeStream := Some(stream.(remaining := stream.remaining - count));
      input := input[count..];
    }

    /** One chunk of payload to the card, and out of the queue if it got there. */
    method StoreQueued(env: Env, disk: Disk, count: nat) returns (taken: bool)
      requires Valid(env, disk) && CurrentMode().Writing? && writeStream.value.failed.None? && writeStream.value.remaining > 0 && out == []
      requires count == Min(writeStream.value.remaining, WRITE_CHUNK) && count <= |input|
      modifies `input, `handles, `writeStream, disk`root, disk`touches
      ensures Valid(env, disk) && OneUnit(env, disk) && CurrentMode().Writing? && StreamHeld()
    {
      hide EnvOk, TreeOk, Wf, JobOk, OnChunk;
      ghost var m := Mach(disk);
      OnWriteOk(env, m, input);
      OnChunkOk(env, m, input[..count]);
      assert input[0..] == input;
      taken := TakeChunk(env, disk, count);
      if taken { input := input[count..]; }
    }

    /** The next chunk of the payload is stored, or dropped, unless more of it has to come or the card is taken. */
    method NextChunk(env: Env, disk: Disk) returns (did: bool, taken: bool)
      requires Valid(env, disk) && CurrentMode().Writing? && writeStream.value.remaining > 0 && out == []
      modifies `input, `handles, `writeStream, `cardBudget, disk`root, disk`touches
      ensures Valid(env, disk) && CurrentMode().Writing? && StreamHeld()
      ensures did ==> OneUnit(env, disk)
      ensures !did ==> Idled(disk) && (cardBudget ==> !Busy(env, Conf(disk)))
      ensures disk.touches != old(disk.touches) ==> old(cardBudget) && !cardBudget
      ensures cardBudget ==> old(cardBudget)
    {
      hide EnvOk, TreeOk, MachineOk, Micro, Then, Busy;
      PayloadWaits(env, Conf(disk));
      var stream := writeStream.value;
      var available := Min(|input|, stream.remaining);
      if available == 0 || (available < WRITE_CHUNK && available < stream.remaining) { return false, false; }
      var count := Min(available, WRITE_CHUNK);
      if stream.failed.None? {
        if !cardBudget { return false, false; }
        SetBudget(env, disk);
        taken := StoreQueued(env, disk, count);
      } else {
        DropChunk(env, disk, count);
        taken := true;
      }
      did := true;
    }

    /** `continue_write`: at most one chunk, and the reply once the payload is used up. */
    method ContinueWrite(env: Env, disk: Disk) returns (did: bool, ghost n: nat)
      requires Valid(env, disk) && CurrentMode().Writing? && out == []
      modifies `input, `out, `handles, `writeStream, `cardBudget, disk`root, disk`touches
      ensures Valid(env, disk) && Progressed(env, disk, n) && StreamHeld() && (CurrentMode().Writing? ==> n <= 1)
      ensures did ==> n > 0
      ensures !did ==> n == 0 && Idled(disk)
      ensures !did && cardBudget ==> !Busy(env, Conf(disk))
      ensures disk.touches != old(disk.touches) ==> old(cardBudget) && !cardBudget
      ensures cardBudget ==> old(cardBudget)
    {
      hide EnvOk, MachineOk, Micro, Reaches, Then, Busy;
      ghost var g := Conf(disk);
      ReachesNone(env, g);
      n := 0;
      if writeStream.value.remaining > 0 {
        var taken;
        did, taken := NextChunk(env, disk);
        if !did { return; }
        ReachesOne(env, g);
        n := 1;
        if !taken { return; }
      }
      did := true;
      if writeStream.value.remaining == 0 {
        ghost var d := Conf(disk);
        FinishWrite(env, disk);
        ReachesOne(env, d);
        ReachesMore(env, g, n, d, 1, Conf(disk));
        n := n + 1;
      }
    }

    // -------------------------------------------------------------------
    // Growth
    // -------------------------------------------------------------------

    method SetBudget(env: Env, disk: Disk)
      requires Valid(env, disk)
      modifies `cardBudget
      ensures Valid(env, disk) && !cardBudget && Conf(disk) == old(Conf(disk))
    {
      hide EnvOk, MachineOk;
      cardBudget := false;
    }

    /** One chunk of zeros at the end of a growing file, or the refusal as a reply. */
    method GrowChunk(env: Env, disk: Disk, size: nat)
      requires Valid(env, disk) && CurrentMode().Growing? && out == []
      requires Lookup(disk.root, resize.value.components).Some? && size == SizeOf(Lookup(disk.root, resize.value.components).value)
      requires size < resize.value.attrs.size.value
      modifies `out, `handles, `resize, disk`root, disk`touches
      ensures Valid(env, disk) && OneUnit(env, disk)
    {
      hide EnvOk, TreeOk, Wf, MachineOk, WriteOutcome, StatusReply, Forget, Lookup, Busy, Then;
      GrowingFile(env, Mach(disk));
      ChunkGrows(env, Conf(disk));
      var job := resize.value;
      resize := None;
      var count := Min(job.attrs.size.value - size, WRITE_CHUNK);
      var err, after := WriteChunk(env, disk, job.file, size, Zeros(count));
      if err.Some? {
        StatusLength(job.id, err.value);
        SendStatus(job.id, err.value);
        return;
      }
      InvalidateFile(job.components);
      resize := Some(job.(file := after));
    }

    /** The last step of a growing SETSTAT: the other attributes, then the reply. */
    method FinishGrowing(env: Env, disk: Disk)
      requires Valid(env, disk) && CurrentMode().Growing? && out == []
      requires Lookup(disk.root, resize.value.components).Some?
      requires resize.value.attrs.size.value <= SizeOf(Lookup(disk.root, resize.value.components).value)
      modifies `out, `handles, `resize, disk`root, disk`touches
      ensures Valid(env, disk) && OneUnit(env, disk)
    {
      hide EnvOk, TreeOk, Wf, MachineOk, StatusReply, Forget, Lookup, NewMeta, AttrsRefusal, Micro, Then, Busy;
      GrowingFile(env, Mach(disk));
      GrowMoves(env, Conf(disk));
      var job := resize.value;
      resize := None;
      ApplyMetadata(env, disk, job.components, job.attrs);
      InvalidateFile(job.components);
      StatusLength(job.id, OK);
      SendStatus(job.id, OK);
    }

    /** `continue_resize`: one chunk of zeros, or the end of the growth. */
    method ContinueResize(env: Env, disk: Disk)
      requires Valid(env, disk) && CurrentMode().Growing? && out == [] && cardBudget
      modifies `out, `handles, `resize, `cardBudget, disk`root, disk`touches
      ensures Valid(env, disk) && OneUnit(env, disk) && !cardBudget
    {
      hide EnvOk, TreeOk, Wf, JobOk, OnGrow, Lookup;
      GrowthFits(env, View(disk));
      JobFile(env, Mach(disk));
      SetBudget(env, disk);
      var job := resize.value;
      var parent, leaf := job.components[..|job.components| - 1], job.components[|job.components| - 1];
      assert parent + [leaf] == job.components;
      var entry := disk.FindEntry(parent, leaf);
      if SizeOf(entry.value) < job.attrs.size.value {
        GrowChunk(env, disk, SizeOf(entry.value));
      } else {
        FinishGrowing(env, disk);
      }
    }

    // -------------------------------------------------------------------
    // The calls the SSH layer makes
    // -------------------------------------------------------------------

    /** As much as `feed` can take without going past the limit, and nothing once it is reached. */
    method InputSpace() returns (space: nat)
      ensures |input| <= MAX_INPUT ==> |input| + space == MAX_INPUT
      ensures |input| >= MAX_INPUT ==> space == 0
    {
      return if |input| <= MAX_INPUT then MAX_INPUT - |input| else 0;
    }

    method Feed(env: Env, ghost disk: Disk, bytes: seq<Byte>)
      requires Valid(env, disk) && |input| + |bytes| <= MAX_INPUT
      modifies `input
      ensures Valid(env, disk) && Conf(disk) == With(old(Conf(disk)), bytes) && cardBudget == old(cardBudget)
    {
      hide EnvOk, MachineOk;
      input := input + bytes;
    }

    method ConsumeOutput(env: Env, ghost disk: Disk, count: nat) returns (taken: seq<Byte>)
      requires Valid(env, disk)
      modifies `out
      ensures Valid(env, disk) && Mach(disk) == old(Mach(disk)) && input == old(input)
      ensures old(out) == taken + out && |taken| == Min(count, |old(out)|)
    {
      hide EnvOk, MachineOk;
      var n := Min(count, |out|);
      taken := out[..n];
      out := out[n..];
    }

    method BeginPoll(env: Env, ghost disk: Disk)
      requires Valid(env, disk)
      modifies `cardBudget
      ensures Valid(env, disk) && cardBudget && Conf(disk) == old(Conf(disk))
    {
      hide EnvOk, MachineOk;
      cardBudget := true;
    }

    /** Bytes of an oversized request, as many as are there. */
    method DropSkipped(env: Env, disk: Disk) returns (did: bool, ghost n: nat)
      requires Valid(env, disk) && CurrentMode().Skipping? && out == []
      modifies `input, `skip
      ensures Valid(env, disk) && Progressed(env, disk, n)
      ensures did ==> n > 0
      ensures !did ==> n == 0 && Idled(disk) && !Busy(env, Conf(disk))
    {
      hide EnvOk, TreeOk, Wf, JobOk, Reaches;
      ghost var g := Conf(disk);
      var count := Min(skip, |input|);
      SkipsTo(env, g, count);
      input := input[count..];
      skip := skip - count;
      n := count;
      ReachesOk(env, g, n, Conf(disk));
      return count > 0, n;
    }

    /** The work of one step, once the last reply has left. */
    method Work(env: Env, disk: Disk) returns (did: bool, ghost n: nat)
      requires Valid(env, disk) && !fatal && out == []
      modifies this, disk
      ensures Valid(env, disk) && Progressed(env, disk, n)
      ensures did ==> n > 0
      ensures !did && !fatal ==> n == 0 && Idled(disk)
      ensures !did && !fatal && cardBudget ==> !Busy(env, Conf(disk))
      ensures disk.touches != old(disk.touches) ==> old(cardBudget) && !cardBudget
      ensures cardBudget ==> old(cardBudget)
      ensures old(readStream).Some? || old(writeStream).Some? ==> StreamHeld()
      ensures (old(resize).Some? && resize.Some?) || (old(writeStream).Some? && writeStream.Some?) ==> n <= 1
    {
      hide EnvOk, TreeOk, Wf, JobOk, Reaches, Micro;
      ghost var g := Conf(disk);
      ReachesNone(env, g);
      if resize.Some? {
        if !cardBudget { return false, 0; }
        ContinueResize(env, disk);
        ReachesOne(env, g);
        return true, 1;
      }
      if readStream.Some? {
        if !cardBudget { return false, 0; }
        SetBudget(env, disk);
        ContinueRead(env, disk);
        ReachesOne(env, g);
        return true, 1;
      }
      if writeStream.Some? {
        did, n := ContinueWrite(env, disk);
        return;
      }
      if skip > 0 {
        did, n := DropSkipped(env, disk);
        return;
      }
      did, n := ParseNext(env, disk);
    }

    /**
     One bounded step: `n` units of work, which the state and the unused input alone
     decide. When nothing can be done with the card free and all replies gone, the
     server waits for input it has room for. While a reply or a payload is in progress
     the handles stay; in the middle of a WRITE or a growth the volume differs from what
     it was by part of the zeros or of the payload.
     */
    method Step(env: Env, disk: Disk) returns (did: bool, ghost n: nat)
      requires Valid(env, disk)
      modifies this, disk
      ensures Valid(env, disk) && Progressed(env, disk, n)
      ensures did ==> n > 0
      ensures !did && !fatal ==> n == 0 && Idled(disk)
      ensures !did && !fatal && out == [] && cardBudget ==> !Busy(env, Conf(disk)) && |input| < MAX_INPUT
      ensures disk.touches != old(disk.touches) ==> old(cardBudget) && !cardBudget
      ensures cardBudget ==> old(cardBudget)
      ensures old(readStream).Some? || old(writeStream).Some? ==> StreamHeld()
      ensures old(resize).Some? && resize.Some? ==> MidGrowth(env, old(Conf(disk)), Conf(disk))
      ensures old(writeStream).Some? && writeStream.Some? && Exact(env, old(Conf(disk))) && !Stops(old(View(disk)), old(input)) ==>
                exists k :: Midway(env, old(Conf(disk)), Conf(disk), k)
    {
      hide EnvOk, MachineOk, Reaches, Micro, Midway, MidGrowth, Exact, Stops;
      ghost var g := Conf(disk);
      ReachesNone(env, g);
      if g.machine.core.mode.Growing? || g.machine.core.mode.Writing? { MidStep(env, g, 0, g); }
      if fatal { return false, 0; }
      if out != [] { return false, 0; }
      did, n := Work(env, disk);
      if g.machine.core.mode.Growing? && resize.Some? { MidStep(env, g, n, Conf(disk)); }
      if g.machine.core.mode.Writing? && writeStream.Some? { MidStep(env, g, n, Conf(disk)); }
      if !did && !fatal && out == [] && cardBudget {
        NotBusyWaits(env, Conf(disk));
        WaitingHasRoom(env, Mach(disk), input);
      }
    }
  }

  // ---------------------------------------------------------------------
  // Handles and what they remember
  // ---------------------------------------------------------------------

  /** What CLOSE, well-formed or not, is served with. */
  lemma CloseServed(env: Env, c: Core, id: nat, r: Request)
    requires EnvOk(env)
    ensures r.BadMessage? ==> Serve(env, c, id, r) == Refuse(c, id, BAD_MESSAGE)
    ensures r.Close? ==> Serve(env, c, id, r) == ServeClose(c, id, r.token)
    ensures r.BadMessage? || r.Close? ==> Rewritten(env, c, r) == None
  {
  }

  lemma RemembersAll(handles: seq<Handle>, root: Vol)
    ensures Remembers(handles, handles, root, None)
  {
  }

  /** A slot that holds no file remembers nothing. */
  lemma RemembersWith(was: seq<Handle>, now: seq<Handle>, root: Vol, rewritten: Option<Path>, i: nat, h: Handle)
    requires Remembers(was, now, root, rewritten) && i < |now| && !h.OpenFile?
    ensures Remembers(was, now[i := h], root, rewritten)
  {
  }

  /** A new handle on a file starts with the file's size and no cursors. */
  lemma RemembersNew(was: seq<Handle>, now: seq<Handle>, root: Vol, rewritten: Option<Path>, i: nat, h: FileHandle)
    requires Remembers(was, now, root, rewritten) && i < |now| && was[i].Closed? && h.cache == Cache(SizeAt(root, FilePath(h)), None, None)
    ensures Remembers(was, now[i := OpenFile(h)], root, rewritten)
  {
  }

  /** Handles on a rewritten file that forget their cursors. */
  lemma RemembersForgotten(was: seq<Handle>, now: seq<Handle>, root: Vol, path: Path)
    requires |now| == |was| && Slots(now) == Slots(was) && Caches(now) == Forget(Slots(was), Caches(was), path)
    ensures Remembers(was, now, root, Some(path))
  {
    hide SamePath;
  }

  lemma OnlyClosedIsFree(handles: seq<Handle>, i: nat)
    requires i < |handles| && Slots(handles)[i].Free?
    ensures handles[i].Closed?
  {
  }

  lemma SameSlot(handles: seq<Handle>, i: nat, h: Handle)
    requires i < |handles| && SlotOfHandle(h) == SlotOfHandle(handles[i])
    ensures Slots(handles[i := h]) == Slots(handles)
  {
    SlotsWith(handles, i, h);
  }

  lemma SameClosed(was: seq<Handle>, now: seq<Handle>, i: nat)
    requires Slots(was) == Slots(now) && i < |now| && now[i].Closed?
    ensures i < |was| && was[i].Closed?
  {
    assert |Slots(was)| == |was| && Slots(was)[i] == Slots(now)[i];
  }

  /** When OPEN truncates: it is validated, and there is a file it may write. */
  lemma WhenTruncated(env: Env, root: Vol, path: Path, flags: nat, attrs: RequestedAttrs)
    ensures Truncates(env, root, path, flags, attrs) ==> AttrsRefusal(env, attrs).None? && path != [] && FileAt(root, path).Some?
  {
  }

  lemma TruncatesOpened(env: Env, root: Vol, nextId: nat, path: Path, flags: nat, attrs: RequestedAttrs)
    requires EnvOk(env) && AttrsRefusal(env, attrs).None? && path != [] && Lookup(root, path).Some?
    ensures var t := OpenFound(env, root, nextId, path, Lookup(root, path).value, flags);
            Truncates(env, root, path, flags, attrs) <==> t.Target? && Bit(flags, 2) && Bit(flags, 16)
  {
    hide EnvOk, Text, Bit, Lookup, AttrsRefusal, PutFile;
  }

  lemma NoFileThere(root: Vol, parent: Path, leaf: Name)
    requires !IsDir(root, parent)
    ensures Lookup(root, parent + [leaf]).None?
  {
    if Lookup(root, parent + [leaf]).Some? { LookupPrefix(root, parent, [leaf]); }
  }

  lemma ReadFits(env: Env, m: Machine)
    requires EnvOk(env) && MachineOk(env, m) && m.core.mode.Reading?
    ensures |OnRead(env, m).out| <= IO_CHUNK
  {
    hide EnvOk, MachineOk, ReadOutcome;
  }

  lemma ReachesNone(env: Env, g: Config)
    requires EnvOk(env) && MachineOk(env, g.machine)
    ensures Reaches(env, g, 0, g)
  {
  }

  /** Bytes of an oversized request are dropped one by one. */
  lemma {:induction false} SkipsTo(env: Env, g: Config, count: nat)
    requires EnvOk(env) && MachineOk(env, g.machine) && count <= |g.rest|
    requires count == 0 || (g.machine.core.mode.Skipping? && count <= g.machine.core.mode.left)
    ensures var m := g.machine;
            var after := if count == 0 then m else m.(core := m.core.(mode := Skipped(m.core.mode.left - count)));
            Reaches(env, g, count, Config(after, g.out, g.rest[count..]))
    decreases count
  {
    hide EnvOk, Wf, JobOk;
    if count == 0 {
      assert g.rest[0..] == g.rest;
      ReachesNone(env, g);
    } else {
      MicroOk(env, g.machine, g.rest);
      var next := Then(env, g);
      assert next.rest == g.rest[1..] && next.out == g.out;
      SkipsTo(env, next, count - 1);
      assert g.rest[1..][count - 1..] == g.rest[count..];
    }
  }

  lemma StatusLength(id: nat, s: Status)
    ensures |StatusReply(id, s)| <= 85
  {
  }

  lemma PacketFits(env: Env, m: Machine, kind: Byte, body: seq<Byte>)
    requires EnvOk(env) && MachineOk(env, m) && m.core.mode.Idle? && |body| < MAX_REQUEST
    ensures |OnPacket(env, m, kind, body).1| <= MAX_OUTPUT
  {
    hide EnvOk, Dispatch, JobOk, Wf, PacketRewrites;
    DispatchAnswers(env, m.core, kind, body);
  }

  /** What the written handle remembered before does not matter. */
  lemma ForgetAt(slots: seq<Slot>, caches: seq<Cache>, slot: nat, k: Cache)
    requires |slots| == |caches| && slot < |slots|
    ensures AfterWrite(slots, caches[slot := k], slot, k) == AfterWrite(slots, caches, slot, k)
  {
    hide SamePath;
  }

  /** The name of an EXTENDED request decides how the rest is read. */
  lemma ExtendedServes(env: Env, c: Core, id: nat, b: seq<Byte>)
    requires EnvOk(env)
    ensures Rewritten(env, c, ParseRequest(FXP_EXTENDED, b)).None?
    ensures var name, s := TakeString(b), Serve(env, c, id, ParseRequest(FXP_EXTENDED, b));
            if name.Short? then s == Refuse(c, id, BAD_MESSAGE)
            else if name.value == Text("limits@openssh.com") then s == Served(c, WordsReply(id, LIMITS))
            else if name.value == Text("fsync@openssh.com") then
              s == (var t := TakeString(name.rest); if t.Got? then ServeFSync(c, id, t.value) else Refuse(c, id, BAD_MESSAGE))
            else if name.value == Text("statvfs@openssh.com") then
              s == (var p := TakePath(name.rest); if p.Got? then ServeStatVfs(env, c, id, Resolved([], p.value)) else Refuse(c, id, BAD_MESSAGE))
            else if name.value == Text("fstatvfs@openssh.com") then
              s == (var t := TakeString(name.rest); if t.Got? then ServeFStatVfs(env, c, id, t.value) else Refuse(c, id, BAD_MESSAGE))
            else s == Refuse(c, id, NO_EXTENSION)
  {
    hide EnvOk, Resolved, TakePath, TakeString, WordsReply, ServeFSync, ServeStatVfs, ServeFStatVfs, Text, Refuse;
    assert ParseRequest(FXP_EXTENDED, b) == ParseExtended(b);
  }

  lemma NotBusyWaits(env: Env, g: Config)
    requires EnvOk(env) && MachineOk(env, g.machine) && !Busy(env, g)
    ensures Micro(env, g.machine, g.rest).Waits?
  {
  }

  /** One unit at most in the middle of a WRITE or a growth. */
  lemma MidStep(env: Env, g: Config, n: nat, d: Config)
    requires EnvOk(env) && Reaches(env, g, n, d) && n <= 1
    ensures MachineOk(env, g.machine)
    ensures g.machine.core.mode.Growing? && d.machine.core.mode.Growing? ==> MidGrowth(env, g, d)
    ensures g.machine.core.mode.Writing? && d.machine.core.mode.Writing? && Exact(env, g) && !Stops(g.machine.core, g.rest) ==>
              exists k :: Midway(env, g, d, k)
  {
    hide EnvOk, MachineOk, Micro, Midway, MidGrowth, Exact, Stops;
    ReachesOk(env, g, n, d);
    if g.machine.core.mode.Growing? { MidGrowthStarts(env, g); }
    if g.machine.core.mode.Writing? { MidwayStarts(env, g); }
    if n == 1 {
      UnitIs(env, g, d);
      if g.machine.core.mode.Growing? && d.machine.core.mode.Growing? { MidGrowthStep(env, g, g); }
      if g.machine.core.mode.Writing? && d.machine.core.mode.Writing? && Exact(env, g) && !Stops(g.machine.core, g.rest) {
        var k := MidwayStep(env, g, g, 0);
      }
    }
  }

  lemma UnitIs(env: Env, g: Config, d: Config)
    requires EnvOk(env) && Reaches(env, g, 1, d)
    ensures Busy(env, g) && d == Then(env, g)
  {
    hide EnvOk, MachineOk, Micro;
    assert Reaches(env, Then(env, g), 0, d);
  }

  lemma CutThenSet(env: Env, root: Vol, path: Path, n: Vol, attrs: RequestedAttrs)
    requires EnvOk(env) && Lookup(root, path) == Some(n)
    ensures var cut := Resized(env, n, attrs.size);
            Lookup(Put(root, path, cut), path) == Some(cut) && (cut == n ==> Put(root, path, cut) == root) &&
            Put(Put(root, path, cut), path, Settled(env, n, attrs)) == Put(root, path, Settled(env, n, attrs))
  {
    hide Resized, Settled;
    var cut := Resized(env, n, attrs.size);
    PutSame(root, path);
    LookupPut(root, path, cut);
    PutPut(root, path, cut, Settled(env, n, attrs));
  }

  lemma NotHeld(root: Vol, parent: Path, leaf: Name)
    requires IsDir(root, parent) && Lookup(root, parent + [leaf]).None?
    ensures !Holds(Lookup(root, parent).value.entries, leaf)
  {
    LookupConcat(root, parent, [leaf]);
  }

  /** Creating an entry and then setting its attributes is creating it with them. */
  lemma CreatedThenSet(root: Vol, parent: Path, leaf: Name, node: Vol, meta: Meta)
    requires IsDir(root, parent) && !Holds(Lookup(root, parent).value.entries, leaf)
    ensures var added := Added(root, parent, Entry(leaf, node));
            Lookup(added, parent + [leaf]) == Some(node) &&
            Put(added, parent + [leaf], WithMeta(node, meta)) == Added(root, parent, Entry(leaf, WithMeta(node, meta)))
  {
    hide Added, Lookup, WithMeta;
    assert Lookup(node, []) == Some(node) && Put(node, [], WithMeta(node, meta)) == WithMeta(node, meta) by { PutHere(node, WithMeta(node, meta)); }
    assert parent + [leaf] + [] == parent + [leaf];
    LookupAddedEntry(root, parent, Entry(leaf, node));
    PutAdded(root, parent, Entry(leaf, node), [], WithMeta(node, meta));
  }

  lemma PutHere(node: Vol, other: Vol)
    ensures Lookup(node, []) == Some(node) && Put(node, [], other) == other
  {
  }

  method ParseWriteHeader(fields: seq<Byte>) returns (id: nat, token: Token, offset: nat, dataLen: nat)
    requires TakeU32(fields).Got? && TakeString(TakeU32(fields).rest).Got?
    requires TakeU64(TakeString(TakeU32(fields).rest).rest).Got? && TakeU32(TakeU64(TakeString(TakeU32(fields).rest).rest).rest).Got?
    ensures id == TakeU32(fields).value && token == TakeString(TakeU32(fields).rest).value
    ensures offset == TakeU64(TakeString(TakeU32(fields).rest).rest).value
    ensures dataLen == TakeU32(TakeU64(TakeString(TakeU32(fields).rest).rest).rest).value
  {
    hide TakeU32, TakeString, TakeU64;
    var reader := new Reader(fields);
    var first := reader.U32();
    var second := reader.String();
    var third := reader.U64();
    var fourth := reader.U32();
    return first.value, second.value, third.value, fourth.value;
  }

  lemma WriteHeaderFields(b: seq<Byte>, h: nat)
    requires |b| >= 25 + h && FromBe32(b[9..13]) == h
    ensures var s := b[5..25 + h];
            && TakeU32(s) == Got(FromBe32(b[5..9]), s[4..])
            && TakeString(s[4..]) == Got(b[13..13 + h], s[8 + h..])
            && TakeU64(s[8 + h..]) == Got(FromBe32(b[13 + h..17 + h]) * U32_LIMIT + FromBe32(b[17 + h..21 + h]), s[16 + h..])
            && TakeU32(s[16 + h..]) == Got(FromBe32(b[21 + h..25 + h]), [])
  {
    hide FromBe32;
    var s := b[5..25 + h];
    Slice(b, 5, 25 + h, 0, 4);
    Slice(b, 5, 25 + h, 4, 8);
    Slice(b, 5, 25 + h, 8, 8 + h);
    Slice(b, 5, 25 + h, 8 + h, 12 + h);
    Slice(b, 5, 25 + h, 12 + h, 16 + h);
    Slice(b, 5, 25 + h, 16 + h, 20 + h);
    assert s[4..][..4] == s[4..8] && s[4..][4..] == s[8..] && s[8..][..h] == s[8..8 + h] && s[8..][h..] == s[8 + h..];
    assert s[8 + h..][..4] == s[8 + h..12 + h] && s[8 + h..][4..8] == s[12 + h..16 + h] && s[8 + h..][8..] == s[16 + h..];
    assert s[16 + h..][..4] == s[16 + h..20 + h] && s[16 + h..][4..] == [];
  }

  lemma Slice(b: seq<Byte>, low: nat, high: nat, i: nat, j: nat)
    requires low <= high <= |b| && i <= j <= high - low
    ensures b[low..high][i..j] == b[low + i..low + j]
  {
    var x, y := b[low..high][i..j], b[low + i..low + j];
    assert |x| == |y|;
    forall k | 0 <= k < |x| ensures x[k] == y[k] {
      assert x[k] == b[low..high][i + k];
      assert y[k] == b[low + i + k];
    }
  }

  lemma NamesStep(env: Env, left: seq<Item>, count: nat)
    requires count < |left|
    ensures NamesBytes(env, left[..count + 1]) == NamesBytes(env, left[..count]) + NameBytes(env, left[count])
  {
    assert left[..count + 1][..count] == left[..count];
  }

  method PutName(env: Env, names: seq<Byte>, e: Item) returns (r: seq<Byte>)
    ensures r == names + NameBytes(env, e)
  {
    hide Str, AttrBytes;
    r := names + Str(e.name);
    r := r + Str(env.listing(e));
    r := r + AttrBytes(env, e.node);
  }

  /** The records of a directory: below the root the dot entries come first. */
  function Records(env: Env, path: Path, entries: seq<Item>): seq<Item> { Dots(env, path) + entries }

  function Dots(env: Env, path: Path): seq<Item> {
    if path == [] then [] else [Entry(DOT, Dir(env.newMeta, [])), Entry(DOT_DOT, Dir(env.newMeta, []))]
  }

  /** One pass over a directory's records: skip what was sent, then take what fits. */
  method NextNames(env: Env, path: Path, entries: seq<Item>, next: nat) returns (names: seq<Byte>, count: nat)
    requires forall i :: 0 <= i < |entries| ==> PlainName(entries[i].name)
    ensures var left := Unsent(entries, next);
            count == Batch(env, left) && names == NamesBytes(env, left[..count])
  {
    hide NamesBytes, NameBytes;
    var records := Records(env, path, entries);
    ghost var dots := |records| - |entries|;
    ghost var left := Unsent(entries, next);
    var skip, at := next, 0;
    names, count := [], 0;
    assert names == NamesBytes(env, left[..0]) by { NoNames(env, left); }
    while at < |records|
      invariant at <= |records| && (skip > 0 ==> count == 0) && (at < dots ==> skip == next && count == 0)
      invariant at >= dots ==> at - dots == next - skip + count
      invariant 0 <= skip <= next && count <= |left| && names == NamesBytes(env, left[..count])
      invariant BatchFrom(env, left, count) == Batch(env, left)
    {
      var record := records[at];
      at := at + 1;
      if record.name == DOT || record.name == DOT_DOT { continue; }
      assert at > dots && record == entries[at - 1 - dots];
      if skip > 0 {
        skip := skip - 1;
        continue;
      }
      assert record == left[count];
      if count >= READDIR_MAX_ENTRIES || |names| >= READDIR_MAX_BYTES { return; }
      NamesStep(env, left, count);
      names := PutName(env, names, record);
      count := count + 1;
    }
  }

  lemma NoNames(env: Env, left: seq<Item>)
    ensures NamesBytes(env, left[..0]) == []
  {
  }

  lemma PlainEntries(env: Env, root: Vol, path: Path)
    requires EnvOk(env) && TreeOk(env, root) && IsDir(root, path)
    ensures var entries := Lookup(root, path).value.entries; forall i :: 0 <= i < |entries| ==> PlainName(entries[i].name)
  {
    LookupOk(env, root, path);
  }

  lemma {:induction false} FirstFreeUnique(slots: seq<Slot>, i: nat)
    requires i <= |slots| && (i < |slots| ==> slots[i].Free?) && forall k :: 0 <= k < i ==> !slots[k].Free?
    ensures FirstFree(slots) == i
  {
  }
}
