/**
 * MirroringService as the object it is: fields updated in place by its
 * methods, each method proved to move the fields exactly as the matching
 * function of MirrorSpec moves a State, and to keep the invariant.
 */
module MirroringServer {
  import opened Wrappers
  import opened HexKeys
  import opened OrderedStore
  import opened MirrorSpec

  class MirroringService {
    var mirroring: set<string>
    var downloads: map<string, Handle>
    var coresDb: Store<CoreRecord>
    var typesDb: Store<Option<string>>
    var live: set<nat>
    var nextToken: nat
    var effects: seq<Effect>
    const drives: DriveResolver

    /** The fields as one State value. */
    function Snapshot(): State
      reads this
    {
      State(mirroring, downloads, coresDb, typesDb, live, nextToken, effects)
    }

    predicate Valid()
      reads this
    {
      Inv(Snapshot())
    }

    /**
     * The service once `_open` has loaded the two persisted regions: nothing
     * mirrored in memory yet, no download requests outstanding.
     */
    constructor (drives: DriveResolver, coresDb: Store<CoreRecord>, typesDb: Store<Option<string>>)
      ensures Valid()
      ensures Snapshot() == State({}, map[], coresDb, typesDb, {}, 0, [])
      ensures this.drives == drives
    {
      this.drives := drives;
      mirroring := {};
      downloads := map[];
      this.coresDb := coresDb;
      this.typesDb := typesDb;
      live := {};
      nextToken := 0;
      effects := [];
    }

    /** core.download(): a new request token, outstanding until released. */
    method Download() returns (request: nat)
      requires forall t :: t in live ==> t < nextToken
      modifies this`live, this`nextToken
      ensures request == old(nextToken) && request !in old(live)
      ensures nextToken == request + 1 && live == old(live) + {request}
    {
      request := nextToken;
      nextToken := nextToken + 1;
      live := live + {request};
    }

    /** core.undownload(request): the request is no longer outstanding. */
    method Undownload(request: nat)
      modifies this`live
      ensures live == old(live) - {request}
    {
      live := live - {request};
    }

    method MirrorCore(key: Key, noReplicate: bool)
      requires Valid()
      modifies this
      ensures Valid()
      ensures Snapshot() == MirrorSpec.MirrorCore(old(Snapshot()), KeyString(key), noReplicate)
    {
      ghost var before := Snapshot();
      var keyString := KeyString(key);
      if !noReplicate {
        effects := effects + [Replicate(keyString)];
      }
      var request := Download();
      downloads := downloads[keyString := Handle(keyString, request)];
      coresDb := Insert(coresDb, keyString, CoreRecord);
      mirroring := mirroring + {keyString};
      assert Snapshot() == MirrorSpec.MirrorCore(before, keyString, noReplicate);
    }

    method UnmirrorCore(key: Key, noUnannounce: bool)
      requires Valid()
      modifies this
      ensures Valid()
      ensures Snapshot() == MirrorSpec.UnmirrorCore(old(Snapshot()), KeyString(key), noUnannounce)
    {
      var keyString := KeyString(key);
      if keyString !in downloads {
        return;
      }
      var handle := downloads[keyString];
      if !noUnannounce {
        effects := effects + [Unannounce(handle.core)];
      }
      Undownload(handle.request);
      downloads := downloads - {keyString};
      mirroring := mirroring - {keyString};
      coresDb := Remove(coresDb, keyString);
    }

    method MirrorDrive(key: seq<Byte>) returns (result: Result<(), Error>)
      requires Valid()
      modifies this
      ensures Valid()
      ensures Transition(Snapshot(), result) == MirrorSpec.MirrorDrive(old(Snapshot()), drives, key)
    {
      effects := effects + [Replicate(ToHex(key))];
      var cores := Resolve(drives, key);
      if cores.None? {
        return Err(ResolutionError(ToHex(key)));
      }
      MirrorCore(Bytes(cores.value.metadata), true);
      MirrorCore(Bytes(cores.value.content), true);
      result := Ok(());
    }

    method UnmirrorDrive(key: seq<Byte>) returns (result: Result<(), Error>)
      requires Valid()
      modifies this
      ensures Valid()
      ensures Transition(Snapshot(), result) == MirrorSpec.UnmirrorDrive(old(Snapshot()), drives, key)
    {
      if ToHex(key) !in downloads {
        return Ok(());
      }
      var cores := Resolve(drives, key);
      if cores.None? {
        return Err(ResolutionError(ToHex(key)));
      }
      effects := effects + [Unannounce(ToHex(cores.value.metadata))];
      UnmirrorCore(Bytes(cores.value.metadata), false);
      UnmirrorCore(Bytes(cores.value.content), false);
      result := Ok(());
    }

    method Mirror(key: Key, kind: Option<string>) returns (result: Result<Status, Error>)
      requires Valid()
      modifies this
      ensures Valid()
      ensures Transition(Snapshot(), result) == MirrorSpec.Mirror(old(Snapshot()), drives, key, kind)
    {
      var bytes := KeyBytes(key);
      match Classify(kind) {
        case CoreKind =>
          MirrorCore(Bytes(bytes), false);
        case DriveKind =>
          var driveResult := MirrorDrive(bytes);
          if driveResult.Err? {
            return Err(driveResult.error);
          }
        case OtherKind =>
      }
      typesDb := Insert(typesDb, ToHex(bytes), kind);
      result := Ok(Status(Bytes(bytes), kind));
    }

    method Unmirror(key: Key, kind: Option<string>) returns (result: Result<Status, Error>)
      requires Valid()
      modifies this
      ensures Valid()
      ensures Transition(Snapshot(), result) == MirrorSpec.Unmirror(old(Snapshot()), drives, key, kind)
    {
      var bytes := KeyBytes(key);
      match Classify(kind) {
        case CoreKind =>
          UnmirrorCore(Bytes(bytes), false);
        case DriveKind =>
          var driveResult := UnmirrorDrive(bytes);
          if driveResult.Err? {
            return Err(driveResult.error);
          }
        case OtherKind =>
      }
      typesDb := Remove(typesDb, ToHex(bytes));
      result := Ok(Status(Bytes(bytes), kind));
    }

    /** `_status({key, type})`: a read of `mirroring`. */
    function Status(key: Key, kind: Option<string>): (status: MirrorSpec.Status)
      reads this
      ensures status == StatusOf(Snapshot(), key, kind)
      ensures Valid() ==> (status.mirroring <==> KeyString(key) in downloads)
    {
      MirrorSpec.Status(key, kind, KeyString(key) in mirroring)
    }

    /** `_list()`: walks the `types` region in store order. */
    method List() returns (entries: seq<ListEntry>)
      ensures entries == MirrorSpec.List(typesDb)
      ensures |entries| == |typesDb|
      ensures forall i :: 0 <= i < |entries| ==> entries[i].mirroring && entries[i].kind == typesDb[i].value
    {
      entries := [];
      for i := 0 to |typesDb|
        invariant |entries| == i
        invariant forall j :: 0 <= j < i ==> entries[j] == ListEntry(typesDb[j].value, FromHex(typesDb[j].key), true)
      {
        entries := entries + [ListEntry(typesDb[i].value, FromHex(typesDb[i].key), true)];
      }
    }

    /** `_restartMirroring()`: `_mirrorCore` on every key of `cores`, one after another. */
    method RestartMirroring()
      requires Valid()
      modifies this
      ensures Valid()
      ensures Snapshot() == Restart(old(Snapshot()))
      ensures mirroring == KeysOf(coresDb) && coresDb == old(coresDb)
    {
      var stored := coresDb;
      ghost var start := Snapshot();
      for i := 0 to |stored|
        invariant Valid()
        invariant Replay(Snapshot(), stored[i..]) == Replay(start, stored)
      {
        assert stored[i..][1..] == stored[i + 1..];
        MirrorCore(HexString(stored[i].key), false);
      }
      RestartRebuilds(start);
    }

    /** `_close()`: undownload every handle, then forget all of them; the regions stay. */
    method Close()
      requires Valid()
      modifies this
      ensures Valid()
      ensures Snapshot() == MirrorSpec.Close(old(Snapshot()))
    {
      var pending := downloads.Keys;
      ghost var released: set<string> := {};
      while pending != {}
        invariant pending + released == downloads.Keys && pending !! released
        invariant live == old(live) - set k | k in released :: downloads[k].request
        invariant downloads == old(downloads) && mirroring == old(mirroring)
        invariant coresDb == old(coresDb) && typesDb == old(typesDb)
        invariant nextToken == old(nextToken) && effects == old(effects)
        decreases pending
      {
        var k :| k in pending;
        Undownload(downloads[k].request);
        pending := pending - {k};
        released := released + {k};
      }
      downloads := map[];
      mirroring := {};
      CloseKeepsIntent(old(Snapshot()));
    }
  }
}
