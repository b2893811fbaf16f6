/** The delete_setup and update_setup handlers of routers/setup.py, with the
    cascades the ORM relationships declare (models/setup.py): deleting a
    setup deletes its playlists, deleting a playlist deletes its images and
    videos, and the devices of a deleted setup are unlinked. */
module SetupEdits {
  import opened Outcomes
  import opened Tables
  import opened Schemas
  import opened Store
  import opened Schedule
  import opened Setups

  // ---------------------------------------------------------------------------
  // Cascades and device links

  /** The ids of a setup's playlists (the rows of `setup.data`). */
  function PlaylistsOf(t: Table<Playlist>, setup: int): set<int>
  {
    set k | k in t.rows && t.rows[k].setupId == setup
  }

  /** DELETE of the playlists `gone` and, by the delete-orphan cascade, of
      every image and video that belongs to one of them. */
  function DropPlaylists(db: Db, gone: set<int>): (db': Db)
    requires TablesOk(db)
    ensures TablesOk(db')
    ensures db'.devices == db.devices && db'.setups == db.setups
    ensures db'.playlists.next == db.playlists.next && db'.images.next == db.images.next && db'.videos.next == db.videos.next
    ensures forall k :: k in db'.playlists.rows <==> k in db.playlists.rows && k !in gone
    ensures forall k :: k in db'.images.rows <==> k in db.images.rows && db.images.rows[k].playlistId !in gone
    ensures forall k :: k in db'.videos.rows <==> k in db.videos.rows && db.videos.rows[k].playlistId !in gone
    ensures forall k :: k in db'.playlists.rows ==> db'.playlists.rows[k] == db.playlists.rows[k]
    ensures forall k :: k in db'.images.rows ==> db'.images.rows[k] == db.images.rows[k]
    ensures forall k :: k in db'.videos.rows ==> db'.videos.rows[k] == db.videos.rows[k]
  {
    db.(playlists := Remove(db.playlists, gone),
        images := Remove(db.images, set k | k in db.images.rows && db.images.rows[k].playlistId in gone),
        videos := Remove(db.videos, set k | k in db.videos.rows && db.videos.rows[k].playlistId in gone))
  }

  /** Dropping playlists together with their media keeps every table
      invariant: no image or video is left pointing at a dropped playlist. */
  lemma DropPlaylistsKeepsDbOk(db: Db, gone: set<int>)
    requires DbOk(db)
    ensures DbOk(DropPlaylists(db, gone))
  {
  }

  /** Every device in `ids` that exists is pointed at `setup`; ids without a
      device are skipped. */
  function Link(t: Table<Device>, setup: int, ids: set<int>): (r: Table<Device>)
    ensures r.next == t.next && r.rows.Keys == t.rows.Keys
    ensures forall k :: k in t.rows ==> r.rows[k] == if k in ids then t.rows[k].(setupId := Some(setup)) else t.rows[k]
  {
    Table(map k | k in t.rows :: if k in ids then t.rows[k].(setupId := Some(setup)) else t.rows[k], t.next)
  }

  /** Every device in `ids` that is linked to `setup` loses its link; a
      device linked elsewhere, or not listed, is left alone. */
  function Unlink(t: Table<Device>, setup: int, ids: set<int>): (r: Table<Device>)
    ensures r.next == t.next && r.rows.Keys == t.rows.Keys
    ensures forall k :: k in t.rows ==>
              r.rows[k] == if k in ids && t.rows[k].setupId == Some(setup) then t.rows[k].(setupId := None) else t.rows[k]
  {
    Table(map k | k in t.rows ::
            if k in ids && t.rows[k].setupId == Some(setup) then t.rows[k].(setupId := None) else t.rows[k], t.next)
  }

  /** After linking, a device is linked to the setup exactly when it was
      already or is listed; the links of other setups lose only the listed
      devices. */
  lemma LinkMoves(t: Table<Device>, setup: int, ids: set<int>, other: int)
    requires t.Valid() && other != setup
    ensures Elements(Linked(Link(t, setup, ids), setup)) ==
              Elements(Linked(t, setup)) + (ids * t.rows.Keys)
    ensures Elements(Linked(Link(t, setup, ids), other)) == Elements(Linked(t, other)) - ids
  {
    var r := Link(t, setup, ids);
    assert forall k :: k in Elements(Linked(r, setup)) <==> k in Linked(r, setup);
    assert forall k :: k in Elements(Linked(t, setup)) <==> k in Linked(t, setup);
    assert forall k :: k in Elements(Linked(r, other)) <==> k in Linked(r, other);
    assert forall k :: k in Elements(Linked(t, other)) <==> k in Linked(t, other);
  }

  /** After unlinking, the setup keeps exactly its unlisted devices and every
      other setup keeps all of its devices. */
  lemma UnlinkDrops(t: Table<Device>, setup: int, ids: set<int>, other: int)
    requires t.Valid() && other != setup
    ensures Elements(Linked(Unlink(t, setup, ids), setup)) == Elements(Linked(t, setup)) - ids
    ensures Linked(Unlink(t, setup, ids), other) == Linked(t, other)
  {
    var r := Unlink(t, setup, ids);
    assert forall k :: k in Elements(Linked(r, setup)) <==> k in Linked(r, setup);
    assert forall k :: k in Elements(Linked(t, setup)) <==> k in Linked(t, setup);
    LinkedDeterminedBySet(r, t, other);
  }

  /** Which devices are linked to a setup depends only on which rows point at
      it, so two tables that agree on that give the same list. */
  lemma LinkedDeterminedBySet(a: Table<Device>, b: Table<Device>, setup: int)
    requires a.Valid() && b.Valid()
    requires forall k :: k in a.rows && a.rows[k].setupId == Some(setup) <==> k in b.rows && b.rows[k].setupId == Some(setup)
    ensures Linked(a, setup) == Linked(b, setup)
  {
    var hi := if a.next < b.next then b.next else a.next;
    LinkedBelowSame(a.rows, b.rows, setup, hi);
    LinkedBelowBeyond(a.rows, setup, a.next, hi);
    LinkedBelowBeyond(b.rows, setup, b.next, hi);
  }

  lemma {:induction false} LinkedBelowSame(a: map<int, Device>, b: map<int, Device>, setup: int, hi: int)
    requires forall k :: 1 <= k < hi ==> (k in a && a[k].setupId == Some(setup) <==> k in b && b[k].setupId == Some(setup))
    ensures LinkedBelow(a, setup, hi) == LinkedBelow(b, setup, hi)
    decreases hi
  {
    if hi > 1 {
      LinkedBelowSame(a, b, setup, hi - 1);
    }
  }

  /** Rows at or above a table's next id do not exist, so a higher bound
      lists nothing more. */
  lemma {:induction false} LinkedBelowBeyond(rows: map<int, Device>, setup: int, next: int, hi: int)
    requires forall k :: k in rows ==> k < next
    requires next <= hi
    ensures LinkedBelow(rows, setup, hi) == LinkedBelow(rows, setup, next)
    decreases hi - next
  {
    if hi > next {
      LinkedBelowBeyond(rows, setup, next, hi - 1);
    }
  }

  lemma UnlinkKeepsDevicesOk(db: Db, db': Db, setup: int, ids: set<int>)
    requires DevicesOk(db) && db'.devices == Unlink(db.devices, setup, ids)
    requires db.setups.rows.Keys - {setup} <= db'.setups.rows.Keys
    requires setup in db'.setups.rows || db.devices.rows.Keys <= ids
    ensures DevicesOk(db')
  {
    var rows, rows' := db.devices.rows, db'.devices.rows;
    forall k | k in rows'
      ensures rows'[k].name == rows[k].name && rows'[k].location == rows[k].location && rows'[k].apiKey == rows[k].apiKey
      ensures rows'[k].setupId.Some? ==> rows'[k].setupId.value in db'.setups.rows
    {
    }
  }

  // ---------------------------------------------------------------------------
  // delete_setup

  /** DELETE /setups/{id}: 404 for an unknown setup; otherwise one
      `update_setup` to each device linked to it, then the setup is deleted
      with its playlists and their media, and its devices are unlinked. */
  function DeleteSetup(st: State, setup: int): (r: Result<State>)
    requires TablesOk(st.db)
    ensures r.Err? <==> setup !in st.db.setups.rows
    ensures r.Err? ==> r.reason == SetupNotFound(setup)
    ensures r.Ok? ==> r.value.db.setups.rows == st.db.setups.rows - {setup}
    ensures r.Ok? ==> r.value.db.setups.next == st.db.setups.next
    ensures r.Ok? ==> r.value.redis == Emit(st.redis, UpdateNotices(Linked(st.db.devices, setup)))
  {
    if setup !in st.db.setups.rows then Err(SetupNotFound(setup))
    else
      var db := DropPlaylists(st.db, PlaylistsOf(st.db.playlists, setup));
      Ok(State(db.(setups := Remove(db.setups, {setup}), devices := Unlink(db.devices, setup, db.devices.rows.Keys)),
               Emit(st.redis, UpdateNotices(Linked(st.db.devices, setup)))))
  }

  /** A deleted setup takes exactly its own playlists along, and exactly the
      media of those playlists; everything that remains is unchanged. */
  lemma DeleteSetupCascades(st: State, setup: int)
    requires TablesOk(st.db) && DeleteSetup(st, setup).Ok?
    ensures var db, db' := st.db, DeleteSetup(st, setup).value.db;
      && (forall k :: k in db'.playlists.rows <==> k in db.playlists.rows && db.playlists.rows[k].setupId != setup)
      && (forall k :: k in db'.images.rows <==>
            k in db.images.rows && !(db.images.rows[k].playlistId in db.playlists.rows
                                     && db.playlists.rows[db.images.rows[k].playlistId].setupId == setup))
      && (forall k :: k in db'.videos.rows <==>
            k in db.videos.rows && !(db.videos.rows[k].playlistId in db.playlists.rows
                                     && db.playlists.rows[db.videos.rows[k].playlistId].setupId == setup))
      && (forall k :: k in db'.playlists.rows ==> db'.playlists.rows[k] == db.playlists.rows[k])
      && (forall k :: k in db'.images.rows ==> db'.images.rows[k] == db.images.rows[k])
      && (forall k :: k in db'.videos.rows ==> db'.videos.rows[k] == db.videos.rows[k])
  {
  }

  /** After the delete no device points at the setup; every other device keeps
      its link, and names, locations, keys and last-seen times are kept. */
  lemma DeleteSetupUnlinks(st: State, setup: int)
    requires TablesOk(st.db) && DeleteSetup(st, setup).Ok?
    ensures var t, t' := st.db.devices, DeleteSetup(st, setup).value.db.devices;
      && t'.rows.Keys == t.rows.Keys
      && (forall k :: k in t.rows ==>
            t'.rows[k] == if t.rows[k].setupId == Some(setup) then t.rows[k].(setupId := None) else t.rows[k])
      && Linked(t', setup) == []
  {
    var t' := DeleteSetup(st, setup).value.db.devices;
    if Linked(t', setup) != [] {
      assert Linked(t', setup)[0] in Linked(t', setup);
    }
  }

  /** The instructions of delete_setup reach each device that was linked to
      the setup exactly once, and no other device. */
  lemma DeleteSetupNotifiesLinked(st: State, setup: int, k: int)
    requires TablesOk(st.db) && DeleteSetup(st, setup).Ok?
    ensures var log := DeleteSetup(st, setup).value.redis.log;
            var added := log[|st.redis.log|..];
      && st.redis.log <= log
      && Distinct(added)
      && (Publish(Instructions(k), UpdateSetupInstruction) in added <==>
            k in st.db.devices.rows && st.db.devices.rows[k].setupId == Some(setup))
  {
    var ids := Linked(st.db.devices, setup);
    NewLogEntries(st.redis, UpdateNotices(ids));
    EachListedDeviceNotified(ids);
  }

  /** Deleting a setup frees its name for a later create_setup. */
  lemma DeleteSetupFreesName(st: State, setup: int)
    requires Valid(st) && DeleteSetup(st, setup).Ok?
    ensures !SetupNameTaken(DeleteSetup(st, setup).value.db, st.db.setups.rows[setup].name)
  {
  }

  /** delete_setup keeps every table invariant. */
  lemma DeleteSetupKeepsValid(st: State, setup: int)
    requires Valid(st) && DeleteSetup(st, setup).Ok?
    ensures Valid(DeleteSetup(st, setup).value)
  {
    var db := DropPlaylists(st.db, PlaylistsOf(st.db.playlists, setup));
    DropPlaylistsKeepsDbOk(st.db, PlaylistsOf(st.db.playlists, setup));
    var db' := DeleteSetup(st, setup).value.db;
    UnlinkKeepsDevicesOk(db, db', setup, db.devices.rows.Keys);
  }

  // ---------------------------------------------------------------------------
  // A setup's stored playlists as the day check reads them

  /** A stored playlist as the day check reads it: the check looks only at
      the name, the times and the day flags. */
  function AsInput(p: Playlist): (q: PlaylistInput)
    ensures q.name == p.name && q.startTime == p.startTime && q.endTime == p.endTime && q.days == p.days
  {
    PlaylistInput(p.name, p.startTime, p.endTime, p.days, [], [])
  }

  /** The stored playlists of `setup` with ids from `from` on, in id order. */
  function StoredFrom(t: Table<Playlist>, setup: int, from: int): seq<PlaylistInput>
    decreases t.next - from
  {
    if from >= t.next then []
    else if from in t.rows && t.rows[from].setupId == setup then [AsInput(t.rows[from])] + StoredFrom(t, setup, from + 1)
    else StoredFrom(t, setup, from + 1)
  }

  /** `setup.data`: every stored playlist of the setup, in id order. */
  function SetupSchedule(t: Table<Playlist>, setup: int): seq<PlaylistInput>
  {
    StoredFrom(t, setup, 1)
  }

  /** The stored playlist at position i of StoredFrom(t, setup, from): the
      row with that id is the setup's, and i playlists of the setup precede
      it. */
  function KeyAt(t: Table<Playlist>, setup: int, from: int, i: nat): (k: int)
    requires i < |StoredFrom(t, setup, from)|
    ensures from <= k < t.next && k in t.rows && t.rows[k].setupId == setup
    ensures StoredFrom(t, setup, from)[i] == AsInput(t.rows[k])
    ensures |StoredFrom(t, setup, from)| - |StoredFrom(t, setup, k)| == i
    decreases t.next - from
  {
    if from in t.rows && t.rows[from].setupId == setup then
      if i == 0 then from else KeyAt(t, setup, from + 1, i - 1)
    else KeyAt(t, setup, from + 1, i)
  }

  /** StoredFrom(t, setup, k) is a suffix of StoredFrom(t, setup, lo). */
  lemma {:induction false} StoredSuffix(t: Table<Playlist>, setup: int, lo: int, k: int)
    requires lo <= k
    ensures |StoredFrom(t, setup, k)| <= |StoredFrom(t, setup, lo)|
    ensures forall m :: 0 <= m < |StoredFrom(t, setup, k)| ==>
              StoredFrom(t, setup, lo)[|StoredFrom(t, setup, lo)| - |StoredFrom(t, setup, k)| + m] == StoredFrom(t, setup, k)[m]
    decreases k - lo
  {
    if lo < k && lo < t.next {
      StoredSuffix(t, setup, lo + 1, k);
    }
  }

  /** Every stored playlist of the setup appears in the schedule, at the
      position given by the number of the setup's playlists with a larger id. */
  lemma StoredRowAt(t: Table<Playlist>, setup: int, a: int)
    requires t.Valid() && a in t.rows && t.rows[a].setupId == setup
    ensures var s := SetupSchedule(t, setup);
            && 0 <= |s| - |StoredFrom(t, setup, a)| < |s|
            && s[|s| - |StoredFrom(t, setup, a)|] == AsInput(t.rows[a])
  {
    StoredSuffix(t, setup, 1, a);
    assert StoredFrom(t, setup, a)[0] == AsInput(t.rows[a]);
  }

  /** Different stored playlists sit at different positions. */
  lemma StoredPositionsDiffer(t: Table<Playlist>, setup: int, a: int, b: int)
    requires a < b && a in t.rows && t.rows[a].setupId == setup && a < t.next
    ensures |StoredFrom(t, setup, b)| < |StoredFrom(t, setup, a)|
  {
    StoredSuffix(t, setup, a + 1, b);
  }

  /** No two different stored playlists of the setup that share a day have
      overlapping [start, end) intervals. */
  ghost predicate StoredNoOverlap(t: Table<Playlist>, setup: int)
  {
    forall a, b, d ::
      && a in t.rows && b in t.rows && a != b
      && t.rows[a].setupId == setup && t.rows[b].setupId == setup
      && 0 <= d < DaysPerWeek && RunsOn(AsInput(t.rows[a]), d) && RunsOn(AsInput(t.rows[b]), d)
      ==> End(AsInput(t.rows[a])) <= Start(AsInput(t.rows[b])) || End(AsInput(t.rows[b])) <= Start(AsInput(t.rows[a]))
  }

  /** The setup's schedule has no same-day overlap exactly when its stored
      rows have none. */
  lemma ScheduleNoOverlapIffStored(t: Table<Playlist>, setup: int)
    requires t.Valid()
    ensures NoSameDayOverlap(SetupSchedule(t, setup)) <==> StoredNoOverlap(t, setup)
  {
    var s := SetupSchedule(t, setup);
    if NoSameDayOverlap(s) {
      forall a, b, d |
        && a in t.rows && b in t.rows && a != b
        && t.rows[a].setupId == setup && t.rows[b].setupId == setup
        && 0 <= d < DaysPerWeek && RunsOn(AsInput(t.rows[a]), d) && RunsOn(AsInput(t.rows[b]), d)
        ensures End(AsInput(t.rows[a])) <= Start(AsInput(t.rows[b])) || End(AsInput(t.rows[b])) <= Start(AsInput(t.rows[a]))
      {
        StoredRowAt(t, setup, a);
        StoredRowAt(t, setup, b);
        if a < b {
          StoredPositionsDiffer(t, setup, a, b);
        } else {
          StoredPositionsDiffer(t, setup, b, a);
        }
        var i, j := |s| - |StoredFrom(t, setup, a)|, |s| - |StoredFrom(t, setup, b)|;
        assert i != j && s[i] == AsInput(t.rows[a]) && s[j] == AsInput(t.rows[b]);
      }
    }
    if StoredNoOverlap(t, setup) {
      forall i, j, d | 0 <= i < |s| && 0 <= j < |s| && 0 <= d < DaysPerWeek && i != j && RunsOn(s[i], d) && RunsOn(s[j], d)
        ensures End(s[i]) <= Start(s[j]) || End(s[j]) <= Start(s[i])
      {
        var a, b := KeyAt(t, setup, 1, i), KeyAt(t, setup, 1, j);
        assert a != b;
      }
    }
  }

  /** Stored playlists that pass the row bounds start before they end. */
  lemma StoredStartsBeforeEnds(db: Db, setup: int)
    requires PlaylistsOk(db)
    ensures StartsBeforeEnds(SetupSchedule(db.playlists, setup))
  {
    var s := SetupSchedule(db.playlists, setup);
    forall p | p in s
      ensures Start(p) < End(p)
    {
      var i :| 0 <= i < |s| && s[i] == p;
      var k := KeyAt(db.playlists, setup, 1, i);
      assert PlaylistRowOk(db.playlists.rows[k]);
    }
  }

  /** For a valid database the day check over a setup's stored playlists
      passes exactly when no two of them overlap on a shared day. */
  lemma StoredCheckIffNoOverlap(db: Db, setup: int)
    requires PlaylistsOk(db)
    ensures CheckDays(SetupSchedule(db.playlists, setup), 0).Pass? <==> StoredNoOverlap(db.playlists, setup)
  {
    StoredStartsBeforeEnds(db, setup);
    ChecksPassIffNoOverlap(SetupSchedule(db.playlists, setup));
    ScheduleNoOverlapIffStored(db.playlists, setup);
  }

  // ---------------------------------------------------------------------------
  // update_setup

  /** `if data.name:` -- a given, non-empty name replaces the setup's. */
  predicate Renames(name: Option<string>)
  {
    name.Some? && name.value != []
  }

  /** The new name is another setup's: the UPDATE of the setup row breaks the
      unique constraint on setup names as soon as the session flushes it. */
  predicate RenameClashes(db: Db, setup: int, name: Option<string>)
  {
    Renames(name) && exists k | k in db.setups.rows :: k != setup && db.setups.rows[k].name == name.value
  }

  /** PUT /setups/{id} as written. After the 404 check and the playlist
      deletes, the overlap check reads `data.playlists`, an attribute
      SetupUpdate does not have: the AttributeError rolls the session back
      and the client sees a 500. A clashing rename fails one step earlier,
      at the autoflush of the first delete lookup. */
  function UpdateSetupAsWritten(st: State, setup: int, data: SetupUpdate): (r: Result<State>)
    ensures r.Err?
    ensures setup !in st.db.setups.rows ==> r.reason == SetupNotFound(setup)
    ensures setup in st.db.setups.rows ==> StatusCode(r.reason) == 500
  {
    if setup !in st.db.setups.rows then Err(SetupNotFound(setup))
    else if RenameClashes(st.db, setup, data.name) && data.playlistsToDelete != [] then Err(IntegrityViolation)
    else Err(MissingAttribute("playlists"))
  }

  /** The stored playlists of `setup` among the listed ids; ids of other
      setups' playlists, or of no playlist, are skipped. */
  function OwnPlaylists(t: Table<Playlist>, setup: int, ids: seq<int>): set<int>
  {
    set k | k in ids && k in t.rows && t.rows[k].setupId == setup
  }

  function Rename(db: Db, setup: int, name: Option<string>): (db': Db)
    requires setup in db.setups.rows
    ensures db'.devices == db.devices && db'.playlists == db.playlists
    ensures db'.images == db.images && db'.videos == db.videos
    ensures db'.setups.next == db.setups.next
    ensures db'.setups.rows == db.setups.rows[setup := if Renames(name) then Setup(name.value) else db.setups.rows[setup]]
  {
    if Renames(name) then db.(setups := Put(db.setups, setup, Setup(name.value))) else db
  }

  /** The media ids an update deletes: listed, and stored under that playlist. */
  function DoomedImages(t: Table<Image>, playlist: int, ids: seq<int>): set<int>
  {
    set k | k in ids && k in t.rows && t.rows[k].playlistId == playlist
  }

  function DoomedVideos(t: Table<Video>, playlist: int, ids: seq<int>): set<int>
  {
    set k | k in ids && k in t.rows && t.rows[k].playlistId == playlist
  }

  /** One entry of playlists_to_update, for a playlist of this setup: the
      listed images of that playlist are deleted and the new ones inserted,
      then the same for videos. An entry naming no playlist of this setup is
      skipped. The entry's name, times and days are not written. */
  function UpdatePlaylist(db: Db, setup: int, u: PlaylistUpdate): (db': Db)
    requires TablesOk(db)
    ensures TablesOk(db')
    ensures db'.devices == db.devices && db'.setups == db.setups && db'.playlists == db.playlists
  {
    if u.id in db.playlists.rows && db.playlists.rows[u.id].setupId == setup then
      db.(images := InsertAll(Remove(db.images, DoomedImages(db.images, u.id, u.imagesToDelete)), ImageRows(u.id, u.imagesToAdd)),
          videos := InsertAll(Remove(db.videos, DoomedVideos(db.videos, u.id, u.videosToDelete)), VideoRows(u.id, u.videosToAdd)))
    else db
  }

  function UpdatePlaylists(db: Db, setup: int, us: seq<PlaylistUpdate>): (db': Db)
    requires TablesOk(db)
    ensures TablesOk(db')
    ensures db'.devices == db.devices && db'.setups == db.setups && db'.playlists == db.playlists
    decreases |us|
  {
    if us == [] then db else UpdatePlaylists(UpdatePlaylist(db, setup, us[0]), setup, us[1..])
  }

  /** The writes of update_setup once its checks have passed, in the order the
      handler makes them: rename, playlist deletes, playlist inserts,
      playlist media edits, device links, device unlinks. */
  function CommitUpdate(db: Db, setup: int, data: SetupUpdate): (r: Result<Db>)
    requires TablesOk(db) && setup in db.setups.rows
    ensures r.Ok? <==> forall i :: 0 <= i < |data.playlistsToAdd| ==> CheckPlaylist(data.playlistsToAdd[i]).Pass?
    ensures r.Err? ==> r.reason.PlaylistWithoutMedia? || r.reason.StartNotBeforeEnd?
  {
    var db1 := Rename(db, setup, data.name);
    var db2 := DropPlaylists(db1, OwnPlaylists(db1.playlists, setup, data.playlistsToDelete));
    match AddPlaylists(db2, setup, data.playlistsToAdd)
    case Err(e) => Err(e)
    case Ok(db3) =>
      var db4 := UpdatePlaylists(db3, setup, data.playlistsToUpdate);
      Ok(db4.(devices := Unlink(Link(db4.devices, setup, Elements(data.devicesToAdd)), setup, Elements(data.devicesToRemove))))
  }

  /** The refusals of update_setup before its writes can fail, in the order
      the handler meets them. A clashing rename surfaces at the first flush:
      the first delete lookup, else the insert of the first new playlist
      (after that playlist's own checks), else a later lookup. */
  function UpdateRefusal(db: Db, setup: int, data: SetupUpdate): (c: Check)
    ensures c.Fail? && c.reason.SetupNotFound? <==> setup !in db.setups.rows
    ensures c.Fail? ==> c.reason.SetupNotFound? || c.reason == IntegrityViolation
    ensures c.Pass? ==> setup in db.setups.rows
    ensures c.Pass? && RenameClashes(db, setup, data.name) ==>
              data.playlistsToDelete == [] && data.playlistsToAdd != [] && CheckPlaylist(data.playlistsToAdd[0]).Fail?
  {
    if setup !in db.setups.rows then Fail(SetupNotFound(setup))
    else if RenameClashes(db, setup, data.name) && data.playlistsToDelete != [] then Fail(IntegrityViolation)
    else if RenameClashes(db, setup, data.name) && (data.playlistsToAdd == [] || CheckPlaylist(data.playlistsToAdd[0]).Pass?) then
      Fail(IntegrityViolation)
    else Pass
  }

  /** PUT /setups/{id} with the overlap check moved to the end, as the
      handler's own note asks: the refusals, the writes, then the per-day
      check over every playlist the setup holds after the writes (a clash
      rolls all of them back), then one `update_setup` instruction to every
      device linked to the setup after the commit. */
  function UpdateSetup(st: State, setup: int, data: SetupUpdate): (r: Result<State>)
    requires TablesOk(st.db)
    ensures r.Ok? ==> setup in st.db.setups.rows && CommitUpdate(st.db, setup, data).Ok?
    ensures r.Ok? ==> r.value.db == CommitUpdate(st.db, setup, data).value
    ensures r.Ok? ==> CheckDays(SetupSchedule(r.value.db.playlists, setup), 0).Pass?
    ensures r.Ok? ==> r.value.redis == Emit(st.redis, UpdateNotices(Linked(r.value.db.devices, setup)))
  {
    match UpdateRefusal(st.db, setup, data)
    case Fail(e) => Err(e)
    case Pass =>
      match CommitUpdate(st.db, setup, data)
      case Err(e) => Err(e)
      case Ok(db') =>
        match CheckDays(SetupSchedule(db'.playlists, setup), 0)
        case Fail(e) => Err(e)
        case Pass => Ok(State(db', Emit(st.redis, UpdateNotices(Linked(db'.devices, setup)))))
  }

  /** update_setup answers 404 exactly for an unknown setup. */
  lemma UpdateSetupNotFound(st: State, setup: int, data: SetupUpdate)
    requires TablesOk(st.db)
    ensures var r := UpdateSetup(st, setup, data);
            (r.Err? && r.reason.SetupNotFound?) <==> setup !in st.db.setups.rows
    ensures var r := UpdateSetup(st, setup, data);
            r.Err? && r.reason.SetupNotFound? ==> r.reason.setup == setup
  {
  }

  /** update_setup succeeds exactly when the setup exists, the new name is
      not another setup's, each new playlist has media and starts before it
      ends, and the setup's playlists after the writes pass the per-day
      check. */
  lemma UpdateSetupAcceptance(st: State, setup: int, data: SetupUpdate)
    requires TablesOk(st.db)
    ensures UpdateSetup(st, setup, data).Ok? <==>
      && setup in st.db.setups.rows
      && !RenameClashes(st.db, setup, data.name)
      && (forall i :: 0 <= i < |data.playlistsToAdd| ==> CheckPlaylist(data.playlistsToAdd[i]).Pass?)
      && CheckDays(SetupSchedule(CommitUpdate(st.db, setup, data).value.playlists, setup), 0).Pass?
  {
  }

  /** A rename to another setup's name is always refused: with a 500 from the
      unique constraint, unless a 400 check on the new playlists comes first. */
  lemma UpdateSetupRefusesClash(st: State, setup: int, data: SetupUpdate)
    requires TablesOk(st.db) && setup in st.db.setups.rows && RenameClashes(st.db, setup, data.name)
    ensures var r := UpdateSetup(st, setup, data);
            r.Err? && (r.reason == IntegrityViolation || StatusCode(r.reason) == 400)
  {
  }

  // ---------------------------------------------------------------------------
  // update_setup: what the commit writes

  /** The device links after an update: a device is linked to the setup
      exactly when it exists, was linked or is listed to be added, and is not
      listed to be removed; unknown ids are skipped. */
  lemma CommitUpdateRelinks(db: Db, setup: int, data: SetupUpdate)
    requires TablesOk(db) && setup in db.setups.rows && CommitUpdate(db, setup, data).Ok?
    ensures var t := CommitUpdate(db, setup, data).value.devices;
            Elements(Linked(t, setup)) ==
              (Elements(Linked(db.devices, setup)) + (Elements(data.devicesToAdd) * db.devices.rows.Keys))
                - Elements(data.devicesToRemove)
  {
    var added, removed := Elements(data.devicesToAdd), Elements(data.devicesToRemove);
    var linked := Link(db.devices, setup, added);
    assert CommitUpdate(db, setup, data).value.devices == Unlink(linked, setup, removed);
    LinkMoves(db.devices, setup, added, setup + 1);
    UnlinkDrops(linked, setup, removed, setup + 1);
  }

  /** Every other setup loses exactly the devices moved to this one. */
  lemma CommitUpdateTakesFromOthers(db: Db, setup: int, data: SetupUpdate, other: int)
    requires TablesOk(db) && setup in db.setups.rows && CommitUpdate(db, setup, data).Ok?
    requires other != setup
    ensures var t := CommitUpdate(db, setup, data).value.devices;
            Elements(Linked(t, other)) == Elements(Linked(db.devices, other)) - Elements(data.devicesToAdd)
  {
    var added, removed := Elements(data.devicesToAdd), Elements(data.devicesToRemove);
    var linked := Link(db.devices, setup, added);
    assert CommitUpdate(db, setup, data).value.devices == Unlink(linked, setup, removed);
    LinkMoves(db.devices, setup, added, other);
    UnlinkDrops(linked, setup, removed, other);
  }

  /** An update changes no device's name, location, key or last-seen time,
      and adds or deletes no device. */
  lemma CommitUpdateKeepsDeviceFields(db: Db, setup: int, data: SetupUpdate)
    requires TablesOk(db) && setup in db.setups.rows && CommitUpdate(db, setup, data).Ok?
    ensures var t := CommitUpdate(db, setup, data).value.devices;
            && t.rows.Keys == db.devices.rows.Keys && t.next == db.devices.next
            && forall k | k in t.rows :: t.rows[k] == db.devices.rows[k].(setupId := t.rows[k].setupId)
  {
    var linked := Link(db.devices, setup, Elements(data.devicesToAdd));
    assert CommitUpdate(db, setup, data).value.devices == Unlink(linked, setup, Elements(data.devicesToRemove));
  }

  /** A stored playlist is deleted exactly when it is listed and belongs to
      this setup, the survivors are unchanged, and the new playlists take the
      next ids in request order. */
  ghost predicate PlaylistsEdited(t: Table<Playlist>, t': Table<Playlist>, setup: int, toDelete: seq<int>, toAdd: seq<PlaylistInput>)
  {
    && (forall k | k in t.rows :: (k in t'.rows <==> !(k in toDelete && t.rows[k].setupId == setup)))
    && (forall k | k in t.rows && k in t'.rows :: t'.rows[k] == t.rows[k])
    && t'.next == t.next + |toAdd|
    && (forall k | k in t'.rows && k !in t.rows :: t.next <= k < t'.next)
    && (forall i | 0 <= i < |toAdd| :: t.next + i in t'.rows && t'.rows[t.next + i] == PlaylistRow(setup, toAdd[i]))
  }

  /** The playlists after an update, as PlaylistsEdited describes them. */
  lemma CommitUpdatePlaylists(db: Db, setup: int, data: SetupUpdate)
    requires TablesOk(db) && setup in db.setups.rows && CommitUpdate(db, setup, data).Ok?
    ensures PlaylistsEdited(db.playlists, CommitUpdate(db, setup, data).value.playlists, setup,
                            data.playlistsToDelete, data.playlistsToAdd)
  {
    var db1 := Rename(db, setup, data.name);
    var db2 := DropPlaylists(db1, OwnPlaylists(db1.playlists, setup, data.playlistsToDelete));
    var db3 := AddPlaylists(db2, setup, data.playlistsToAdd).value;
    assert CommitUpdate(db, setup, data).value.playlists == db3.playlists;
    AddPlaylistsAdds(db2, setup, data.playlistsToAdd);
    EditedPlaylists(db.playlists, db2.playlists, db3.playlists, setup, data.playlistsToDelete, data.playlistsToAdd);
  }

  lemma EditedPlaylists(t: Table<Playlist>, t2: Table<Playlist>, t3: Table<Playlist>, setup: int,
                        toDelete: seq<int>, toAdd: seq<PlaylistInput>)
    requires t.Valid() && t2.next == t.next
    requires forall k :: k in t2.rows <==> k in t.rows && k !in OwnPlaylists(t, setup, toDelete)
    requires forall k :: k in t2.rows ==> t2.rows[k] == t.rows[k]
    requires PlaylistsAdded(t2, t3, setup, toAdd)
    ensures PlaylistsEdited(t, t3, setup, toDelete, toAdd)
  {
  }

  // ---------------------------------------------------------------------------
  // update_setup: media edits

  /** The image rows of one playlist after a media edit: a stored image is
      deleted exactly when it is listed and belongs to that playlist, the
      survivors are unchanged, and the new images take the next ids, in
      request order, under that playlist. */
  ghost predicate ImagesEdited(t: Table<Image>, t': Table<Image>, playlist: int, toDelete: seq<int>, toAdd: seq<ImageInput>)
  {
    && (forall k | k in t.rows :: (k in t'.rows <==> !(k in toDelete && t.rows[k].playlistId == playlist)))
    && (forall k | k in t.rows && k in t'.rows :: t'.rows[k] == t.rows[k])
    && t'.next == t.next + |toAdd|
    && (forall k | k in t'.rows && k !in t.rows :: t.next <= k < t'.next)
    && (forall i | 0 <= i < |toAdd| ::
          t.next + i in t'.rows && t'.rows[t.next + i] == Image(playlist, toAdd[i].url, toAdd[i].duration))
  }

  ghost predicate VideosEdited(t: Table<Video>, t': Table<Video>, playlist: int, toDelete: seq<int>, toAdd: seq<string>)
  {
    && (forall k | k in t.rows :: (k in t'.rows <==> !(k in toDelete && t.rows[k].playlistId == playlist)))
    && (forall k | k in t.rows && k in t'.rows :: t'.rows[k] == t.rows[k])
    && t'.next == t.next + |toAdd|
    && (forall k | k in t'.rows && k !in t.rows :: t.next <= k < t'.next)
    && (forall i | 0 <= i < |toAdd| :: t.next + i in t'.rows && t'.rows[t.next + i] == Video(playlist, toAdd[i]))
  }

  predicate OwnedBy(t: Table<Playlist>, setup: int, playlist: int)
  {
    playlist in t.rows && t.rows[playlist].setupId == setup
  }

  /** An entry of playlists_to_update edits the media of its playlist when
      that playlist belongs to the setup, and changes nothing otherwise. */
  lemma UpdatePlaylistEdits(db: Db, setup: int, u: PlaylistUpdate)
    requires TablesOk(db)
    ensures !OwnedBy(db.playlists, setup, u.id) ==> UpdatePlaylist(db, setup, u) == db
    ensures OwnedBy(db.playlists, setup, u.id) ==>
              && ImagesEdited(db.images, UpdatePlaylist(db, setup, u).images, u.id, u.imagesToDelete, u.imagesToAdd)
              && VideosEdited(db.videos, UpdatePlaylist(db, setup, u).videos, u.id, u.videosToDelete, u.videosToAdd)
  {
    if OwnedBy(db.playlists, setup, u.id) {
      EditImages(db.images, u.id, u.imagesToDelete, u.imagesToAdd);
      EditVideos(db.videos, u.id, u.videosToDelete, u.videosToAdd);
    }
  }

  /** The image deletes and inserts of one entry, on the image table alone. */
  lemma EditImages(t: Table<Image>, playlist: int, toDelete: seq<int>, toAdd: seq<ImageInput>)
    requires t.Valid()
    ensures ImagesEdited(t, InsertAll(Remove(t, DoomedImages(t, playlist, toDelete)), ImageRows(playlist, toAdd)), playlist, toDelete, toAdd)
  {
    var r := Remove(t, DoomedImages(t, playlist, toDelete));
    var rs := ImageRows(playlist, toAdd);
    var t' := InsertAll(r, rs);
    forall k | k in t.rows
      ensures k in t'.rows <==> !(k in toDelete && t.rows[k].playlistId == playlist)
    {
      assert k < t.next;
    }
    forall i | 0 <= i < |toAdd|
      ensures t.next + i in t'.rows && t'.rows[t.next + i] == Image(playlist, toAdd[i].url, toAdd[i].duration)
    {
      assert t'.rows[r.next + i] == rs[i];
    }
  }

  /** The video deletes and inserts of one entry, on the video table alone. */
  lemma EditVideos(t: Table<Video>, playlist: int, toDelete: seq<int>, toAdd: seq<string>)
    requires t.Valid()
    ensures VideosEdited(t, InsertAll(Remove(t, DoomedVideos(t, playlist, toDelete)), VideoRows(playlist, toAdd)), playlist, toDelete, toAdd)
  {
    var r := Remove(t, DoomedVideos(t, playlist, toDelete));
    var rs := VideoRows(playlist, toAdd);
    var t' := InsertAll(r, rs);
    forall k | k in t.rows
      ensures k in t'.rows <==> !(k in toDelete && t.rows[k].playlistId == playlist)
    {
      assert k < t.next;
    }
    forall i | 0 <= i < |toAdd|
      ensures t.next + i in t'.rows && t'.rows[t.next + i] == Video(playlist, toAdd[i])
    {
      assert t'.rows[r.next + i] == rs[i];
    }
  }

  /** Media of a playlist that exists and belongs to another setup. */
  predicate ForeignMedia(t: Table<Playlist>, setup: int, playlist: int)
  {
    playlist in t.rows && t.rows[playlist].setupId != setup
  }

  /** Every image and video of another setup's playlist is still stored,
      unchanged. */
  ghost predicate ForeignMediaKept(db: Db, db': Db, setup: int)
  {
    && (forall k | k in db.images.rows && ForeignMedia(db.playlists, setup, db.images.rows[k].playlistId) ::
          k in db'.images.rows && db'.images.rows[k] == db.images.rows[k])
    && (forall k | k in db.videos.rows && ForeignMedia(db.playlists, setup, db.videos.rows[k].playlistId) ::
          k in db'.videos.rows && db'.videos.rows[k] == db.videos.rows[k])
  }

  lemma {:induction false} UpdatePlaylistsKeepForeignMedia(db: Db, setup: int, us: seq<PlaylistUpdate>)
    requires TablesOk(db)
    ensures ForeignMediaKept(db, UpdatePlaylists(db, setup, us), setup)
    decreases |us|
  {
    if us != [] {
      var db1 := UpdatePlaylist(db, setup, us[0]);
      UpdatePlaylistEdits(db, setup, us[0]);
      UpdatePlaylistsKeepForeignMedia(db1, setup, us[1..]);
    }
  }

  /** An update leaves every other setup's playlists, images and videos as
      they were. */
  lemma CommitUpdateKeepsOtherSetups(db: Db, setup: int, data: SetupUpdate)
    requires TablesOk(db) && setup in db.setups.rows && CommitUpdate(db, setup, data).Ok?
    ensures var db' := CommitUpdate(db, setup, data).value;
            forall k | ForeignMedia(db.playlists, setup, k) :: k in db'.playlists.rows && db'.playlists.rows[k] == db.playlists.rows[k]
    ensures ForeignMediaKept(db, CommitUpdate(db, setup, data).value, setup)
  {
    var db1 := Rename(db, setup, data.name);
    var db2 := DropPlaylists(db1, OwnPlaylists(db1.playlists, setup, data.playlistsToDelete));
    var db3 := AddPlaylists(db2, setup, data.playlistsToAdd).value;
    var db4 := UpdatePlaylists(db3, setup, data.playlistsToUpdate);
    assert CommitUpdate(db, setup, data).value == db4.(devices := CommitUpdate(db, setup, data).value.devices);
    AddPlaylistsAdds(db2, setup, data.playlistsToAdd);
    UpdatePlaylistsKeepForeignMedia(db3, setup, data.playlistsToUpdate);
    ForeignMediaThroughAdd(db, db2, db3, setup, data.playlistsToAdd);
  }

  lemma ForeignMediaThroughAdd(db: Db, db2: Db, db3: Db, setup: int, ps: seq<PlaylistInput>)
    requires ForeignMediaKept(db, db2, setup)
    requires forall k | ForeignMedia(db.playlists, setup, k) :: k in db2.playlists.rows && db2.playlists.rows[k] == db.playlists.rows[k]
    requires Added(db2, db3, setup, ps)
    ensures forall k | ForeignMedia(db.playlists, setup, k) :: k in db3.playlists.rows && db3.playlists.rows[k] == db.playlists.rows[k]
    ensures ForeignMediaKept(db, db3, setup)
  {
  }

  // ---------------------------------------------------------------------------
  // update_setup: invariant preservation

  /** A rename to a valid name that no other setup holds keeps the tables
      consistent. */
  lemma RenameKeepsDbOk(db: Db, setup: int, name: Option<string>)
    requires DbOk(db) && setup in db.setups.rows
    requires name.Some? ==> NameOk(name.value)
    requires !RenameClashes(db, setup, name)
    ensures DbOk(Rename(db, setup, name))
  {
    var db' := Rename(db, setup, name);
    assert db'.setups.rows.Keys == db.setups.rows.Keys;
  }

  /** A media edit with valid new images and videos keeps the tables
      consistent: the new media belong to a stored playlist. */
  lemma UpdatePlaylistKeepsDbOk(db: Db, setup: int, u: PlaylistUpdate)
    requires DbOk(db) && PlaylistUpdateOk(u)
    ensures DbOk(UpdatePlaylist(db, setup, u))
  {
    UpdatePlaylistEdits(db, setup, u);
    var db' := UpdatePlaylist(db, setup, u);
    if OwnedBy(db.playlists, setup, u.id) {
      EditedImagesOk(db.images, db'.images, db.playlists, u.id, u.imagesToDelete, u.imagesToAdd);
      EditedVideosOk(db.videos, db'.videos, db.playlists, u.id, u.videosToDelete, u.videosToAdd);
    }
  }

  lemma EditedImagesOk(t: Table<Image>, t': Table<Image>, playlists: Table<Playlist>, playlist: int,
                       toDelete: seq<int>, toAdd: seq<ImageInput>)
    requires ImagesEdited(t, t', playlist, toDelete, toAdd) && playlist in playlists.rows
    requires forall k | k in t.rows :: t.rows[k].playlistId in playlists.rows && ImageOk(ImageInput(t.rows[k].url, t.rows[k].duration))
    requires forall i | i in toAdd :: ImageOk(i)
    ensures forall k | k in t'.rows :: t'.rows[k].playlistId in playlists.rows && ImageOk(ImageInput(t'.rows[k].url, t'.rows[k].duration))
  {
    forall k | k in t'.rows && k !in t.rows
      ensures t'.rows[k].playlistId in playlists.rows && ImageOk(ImageInput(t'.rows[k].url, t'.rows[k].duration))
    {
      var i := k - t.next;
      assert t'.rows[t.next + i] == Image(playlist, toAdd[i].url, toAdd[i].duration);
      assert toAdd[i] in toAdd;
    }
  }

  lemma EditedVideosOk(t: Table<Video>, t': Table<Video>, playlists: Table<Playlist>, playlist: int,
                       toDelete: seq<int>, toAdd: seq<string>)
    requires VideosEdited(t, t', playlist, toDelete, toAdd) && playlist in playlists.rows
    requires forall k | k in t.rows :: t.rows[k].playlistId in playlists.rows && VideoOk(t.rows[k].url)
    requires forall v | v in toAdd :: VideoOk(v)
    ensures forall k | k in t'.rows :: t'.rows[k].playlistId in playlists.rows && VideoOk(t'.rows[k].url)
  {
    forall k | k in t'.rows && k !in t.rows
      ensures t'.rows[k].playlistId in playlists.rows && VideoOk(t'.rows[k].url)
    {
      var i := k - t.next;
      assert t'.rows[t.next + i] == Video(playlist, toAdd[i]);
      assert toAdd[i] in toAdd;
    }
  }

  lemma {:induction false} UpdatePlaylistsKeepsDbOk(db: Db, setup: int, us: seq<PlaylistUpdate>)
    requires DbOk(db) && forall u | u in us :: PlaylistUpdateOk(u)
    ensures DbOk(UpdatePlaylists(db, setup, us))
    decreases |us|
  {
    if us != [] {
      UpdatePlaylistKeepsDbOk(db, setup, us[0]);
      UpdatePlaylistsKeepsDbOk(UpdatePlaylist(db, setup, us[0]), setup, us[1..]);
    }
  }

  /** Linking devices to a stored setup keeps the device invariant. */
  lemma LinkSetKeepsDevicesOk(db: Db, db': Db, setup: int, ids: set<int>)
    requires DevicesOk(db) && db'.devices == Link(db.devices, setup, ids)
    requires db.setups.rows.Keys <= db'.setups.rows.Keys && setup in db'.setups.rows
    ensures DevicesOk(db')
  {
    var was, now := db.devices.rows, db'.devices.rows;
    forall k | k in now
      ensures now[k].name == was[k].name && now[k].location == was[k].location && now[k].apiKey == was[k].apiKey
      ensures now[k].setupId.Some? ==> now[k].setupId.value in db'.setups.rows
    {
    }
  }

  /** The commit of a valid update whose rename does not clash keeps every
      table invariant. */
  lemma CommitUpdateKeepsDbOk(db: Db, setup: int, data: SetupUpdate)
    requires DbOk(db) && SetupUpdateOk(data) && setup in db.setups.rows
    requires !RenameClashes(db, setup, data.name) && CommitUpdate(db, setup, data).Ok?
    ensures DbOk(CommitUpdate(db, setup, data).value)
  {
    var db1 := Rename(db, setup, data.name);
    RenameKeepsDbOk(db, setup, data.name);
    var db2 := DropPlaylists(db1, OwnPlaylists(db1.playlists, setup, data.playlistsToDelete));
    DropPlaylistsKeepsDbOk(db1, OwnPlaylists(db1.playlists, setup, data.playlistsToDelete));
    var db3 := AddPlaylists(db2, setup, data.playlistsToAdd).value;
    AddPlaylistsKeepsDbOk(db2, setup, data.playlistsToAdd);
    var db4 := UpdatePlaylists(db3, setup, data.playlistsToUpdate);
    UpdatePlaylistsKeepsDbOk(db3, setup, data.playlistsToUpdate);
    var db5 := db4.(devices := Link(db4.devices, setup, Elements(data.devicesToAdd)));
    LinkSetKeepsDevicesOk(db4, db5, setup, Elements(data.devicesToAdd));
    var db6 := db5.(devices := Unlink(db5.devices, setup, Elements(data.devicesToRemove)));
    UnlinkKeepsDevicesOk(db5, db6, setup, Elements(data.devicesToRemove));
    assert CommitUpdate(db, setup, data).value == db6;
  }

  /** A successful update_setup keeps the state valid. */
  lemma UpdateSetupKeepsValid(st: State, setup: int, data: SetupUpdate)
    requires Valid(st) && SetupUpdateOk(data) && UpdateSetup(st, setup, data).Ok?
    ensures Valid(UpdateSetup(st, setup, data).value)
  {
    UpdateSetupAcceptance(st, setup, data);
    CommitUpdateKeepsDbOk(st.db, setup, data);
  }

  /** The rename of an update: a given non-empty name replaces the setup's,
      and no other setup row changes. */
  lemma CommitUpdateRenames(db: Db, setup: int, data: SetupUpdate)
    requires TablesOk(db) && setup in db.setups.rows && CommitUpdate(db, setup, data).Ok?
    ensures var s := CommitUpdate(db, setup, data).value.setups;
            && s.rows.Keys == db.setups.rows.Keys && s.next == db.setups.next
            && (forall k | k in s.rows && k != setup :: s.rows[k] == db.setups.rows[k])
            && s.rows[setup].name == (if Renames(data.name) then data.name.value else db.setups.rows[setup].name)
  {
    var db1 := Rename(db, setup, data.name);
    var db2 := DropPlaylists(db1, OwnPlaylists(db1.playlists, setup, data.playlistsToDelete));
    var db3 := AddPlaylists(db2, setup, data.playlistsToAdd).value;
    assert CommitUpdate(db, setup, data).value.setups == db3.setups;
  }

  // ---------------------------------------------------------------------------
  // update_setup: notices and schedule

  /** After an update, a device gets an `update_setup` instruction exactly
      when it is linked to the setup after the commit: it exists, was linked
      or was listed to be added, and was not listed to be removed. A device
      removed by the update is not told. */
  lemma UpdateSetupNotifies(st: State, setup: int, data: SetupUpdate, k: int)
    requires TablesOk(st.db) && UpdateSetup(st, setup, data).Ok?
    ensures var log := UpdateSetup(st, setup, data).value.redis.log;
            && st.redis.log <= log
            && (Publish(Instructions(k), UpdateSetupInstruction) in log[|st.redis.log|..] <==>
                  && k in st.db.devices.rows
                  && (st.db.devices.rows[k].setupId == Some(setup) || k in data.devicesToAdd)
                  && k !in data.devicesToRemove)
  {
    var db' := CommitUpdate(st.db, setup, data).value;
    NewLogEntries(st.redis, UpdateNotices(Linked(db'.devices, setup)));
    EachListedDeviceNotified(Linked(db'.devices, setup));
    CommitUpdateRelinks(st.db, setup, data);
    assert k in Linked(db'.devices, setup) <==> k in Elements(Linked(db'.devices, setup));
    assert k in Linked(st.db.devices, setup) <==> k in Elements(Linked(st.db.devices, setup));
  }

  /** The corrected update leaves no two playlists of the setup that share a
      day overlapping: neither two new ones, nor a new one and one kept from
      before, nor two kept ones. */
  lemma UpdateSetupNoOverlap(st: State, setup: int, data: SetupUpdate)
    requires Valid(st) && SetupUpdateOk(data) && UpdateSetup(st, setup, data).Ok?
    ensures StoredNoOverlap(UpdateSetup(st, setup, data).value.db.playlists, setup)
  {
    UpdateSetupKeepsValid(st, setup, data);
    StoredCheckIffNoOverlap(UpdateSetup(st, setup, data).value.db, setup);
  }

  /** Conversely, writes that would leave two same-day playlists of the
      setup overlapping are refused: with the day check's 400, or with the
      500 of a clashing rename that surfaces first. */
  lemma UpdateSetupRefusesOverlap(st: State, setup: int, data: SetupUpdate)
    requires Valid(st) && SetupUpdateOk(data) && setup in st.db.setups.rows
    requires CommitUpdate(st.db, setup, data).Ok?
    requires !StoredNoOverlap(CommitUpdate(st.db, setup, data).value.playlists, setup)
    ensures var r := UpdateSetup(st, setup, data);
            r.Err? && (r.reason.PlaylistsOverlap? || r.reason == IntegrityViolation)
  {
    if !RenameClashes(st.db, setup, data.name) {
      CommitUpdateKeepsDbOk(st.db, setup, data);
      StoredCheckIffNoOverlap(CommitUpdate(st.db, setup, data).value, setup);
    }
  }

  /** The update as written never succeeds, while the same request under the
      corrected handler can: the empty update of an existing setup whose
      stored playlists pass the day check is refused with a 500 as written
      and accepted as intended. */
  lemma UpdateAsWrittenRefusesEmptyUpdate(st: State, setup: int)
    requires TablesOk(st.db) && setup in st.db.setups.rows
    requires CheckDays(SetupSchedule(st.db.playlists, setup), 0).Pass?
    ensures var empty := SetupUpdate(None, [], [], [], [], []);
            && UpdateSetupAsWritten(st, setup, empty) == Err(MissingAttribute("playlists"))
            && UpdateSetup(st, setup, empty).Ok?
  {
    var empty := SetupUpdate(None, [], [], [], [], []);
    var t := st.db.playlists;
    var gone := OwnPlaylists(t, setup, []);
    assert gone == {};
    assert Remove(t, gone).rows == t.rows;
    UpdateSetupAcceptance(st, setup, empty);
    assert CommitUpdate(st.db, setup, empty).value.playlists == t;
  }
}
