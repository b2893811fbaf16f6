/** The setup handlers of routers/setup.py: creating, deleting and updating a
    setup together with its playlists, images, videos and device links, and
    the `update_setup` instructions published to devices afterwards. */
module Setups {
  import opened Outcomes
  import opened Tables
  import opened Schemas
  import opened Store
  import opened Schedule

  // ---------------------------------------------------------------------------
  // Rows built from a request

  function PlaylistRow(setup: int, p: PlaylistInput): Playlist
  {
    Playlist(setup, p.name, p.startTime, p.endTime, p.days)
  }

  function ImageRows(playlist: int, images: seq<ImageInput>): (rs: seq<Image>)
    ensures |rs| == |images|
    ensures forall i :: 0 <= i < |images| ==> rs[i] == Image(playlist, images[i].url, images[i].duration)
  {
    seq(|images|, i requires 0 <= i < |images| => Image(playlist, images[i].url, images[i].duration))
  }

  function VideoRows(playlist: int, urls: seq<string>): (rs: seq<Video>)
    ensures |rs| == |urls|
    ensures forall i :: 0 <= i < |urls| ==> rs[i] == Video(playlist, urls[i])
  {
    seq(|urls|, i requires 0 <= i < |urls| => Video(playlist, urls[i]))
  }

  /** The checks made on each new playlist just before it is inserted: it has
      at least one image or video, and then its start is before its end. */
  function CheckPlaylist(p: PlaylistInput): (c: Check)
    ensures c.Pass? <==> (|p.images| > 0 || |p.videos| > 0) && Start(p) < End(p)
    ensures c.Fail? && |p.images| == 0 && |p.videos| == 0 ==> c.reason == PlaylistWithoutMedia(p.name)
    ensures c.Fail? && (|p.images| > 0 || |p.videos| > 0) ==> c.reason == StartNotBeforeEnd(p.name)
  {
    if |p.images| == 0 && |p.videos| == 0 then Fail(PlaylistWithoutMedia(p.name))
    else if Start(p) >= End(p) then Fail(StartNotBeforeEnd(p.name))
    else Pass
  }

  // ---------------------------------------------------------------------------
  // Inserting playlists with their media

  /** `db'` is `db` with the playlists `ps` of `setup` inserted under the
      consecutive ids that follow `db.playlists.next`, each with its own images
      and videos, and nothing else changed. */
  ghost predicate Added(db: Db, db': Db, setup: int, ps: seq<PlaylistInput>)
  {
    && db'.devices == db.devices && db'.setups == db.setups
    && PlaylistsAdded(db.playlists, db'.playlists, setup, ps)
    && ImagesAdded(db.playlists.next, db.images, db'.images, ps)
    && VideosAdded(db.playlists.next, db.videos, db'.videos, ps)
  }

  ghost predicate PlaylistsAdded(t: Table<Playlist>, t': Table<Playlist>, setup: int, ps: seq<PlaylistInput>)
  {
    && t'.Valid()
    && t'.next == t.next + |ps|
    && (forall k :: k in t'.rows <==> k in t.rows || t.next <= k < t.next + |ps|)
    && (forall k :: k in t.rows ==> t'.rows[k] == t.rows[k])
    && (forall i :: 0 <= i < |ps| ==> t'.rows[t.next + i] == PlaylistRow(setup, ps[i]))
  }

  /** The image rows inserted for the playlists `ps` numbered from `first`,
      in order: every image of the first playlist, then every image of the
      second, and so on. */
  function NewImageRows(first: int, ps: seq<PlaylistInput>): seq<Image>
    decreases |ps|
  {
    if ps == [] then [] else ImageRows(first, ps[0].images) + NewImageRows(first + 1, ps[1..])
  }

  function NewVideoRows(first: int, ps: seq<PlaylistInput>): seq<Video>
    decreases |ps|
  {
    if ps == [] then [] else VideoRows(first, ps[0].videos) + NewVideoRows(first + 1, ps[1..])
  }

  /** Each new image row belongs to one of the new playlists and is one of
      that playlist's images. */
  lemma {:induction false} NewImageRowsBelong(first: int, ps: seq<PlaylistInput>, i: int)
    requires 0 <= i < |NewImageRows(first, ps)|
    ensures var m := NewImageRows(first, ps)[i];
            first <= m.playlistId < first + |ps| && ImageInput(m.url, m.duration) in ps[m.playlistId - first].images
    decreases |ps|
  {
    var head := ImageRows(first, ps[0].images);
    assert NewImageRows(first, ps) == head + NewImageRows(first + 1, ps[1..]);
    if i < |head| {
      assert NewImageRows(first, ps)[i] == head[i];
      assert ps[0].images[i] in ps[0].images;
    } else {
      assert NewImageRows(first, ps)[i] == NewImageRows(first + 1, ps[1..])[i - |head|];
      NewImageRowsBelong(first + 1, ps[1..], i - |head|);
      var m := NewImageRows(first, ps)[i];
      assert ps[m.playlistId - first] == ps[1..][m.playlistId - (first + 1)];
    }
  }

  lemma {:induction false} NewVideoRowsBelong(first: int, ps: seq<PlaylistInput>, i: int)
    requires 0 <= i < |NewVideoRows(first, ps)|
    ensures var v := NewVideoRows(first, ps)[i];
            first <= v.playlistId < first + |ps| && v.url in ps[v.playlistId - first].videos
    decreases |ps|
  {
    var head := VideoRows(first, ps[0].videos);
    assert NewVideoRows(first, ps) == head + NewVideoRows(first + 1, ps[1..]);
    if i < |head| {
      assert NewVideoRows(first, ps)[i] == head[i];
      assert ps[0].videos[i] in ps[0].videos;
    } else {
      assert NewVideoRows(first, ps)[i] == NewVideoRows(first + 1, ps[1..])[i - |head|];
      NewVideoRowsBelong(first + 1, ps[1..], i - |head|);
      var v := NewVideoRows(first, ps)[i];
      assert ps[v.playlistId - first] == ps[1..][v.playlistId - (first + 1)];
    }
  }

  /** The image table after the inserts is the old one with exactly the rows
      of NewImageRows appended, in order, under consecutive new ids. */
  ghost predicate ImagesAdded(first: int, t: Table<Image>, t': Table<Image>, ps: seq<PlaylistInput>)
  {
    var rs := NewImageRows(first, ps);
    && t'.Valid()
    && t'.next == t.next + |rs|
    && (forall k :: k in t'.rows <==> k in t.rows || t.next <= k < t.next + |rs|)
    && (forall k :: k in t.rows ==> t'.rows[k] == t.rows[k])
    && (forall i :: 0 <= i < |rs| ==> t'.rows[t.next + i] == rs[i])
  }

  ghost predicate VideosAdded(first: int, t: Table<Video>, t': Table<Video>, ps: seq<PlaylistInput>)
  {
    var rs := NewVideoRows(first, ps);
    && t'.Valid()
    && t'.next == t.next + |rs|
    && (forall k :: k in t'.rows <==> k in t.rows || t.next <= k < t.next + |rs|)
    && (forall k :: k in t.rows ==> t'.rows[k] == t.rows[k])
    && (forall i :: 0 <= i < |rs| ==> t'.rows[t.next + i] == rs[i])
  }

  /** After the inserts, old image rows are kept and each new one belongs to
      one of the new playlists and is one of that playlist's images. */
  lemma ImagesAddedBelong(first: int, t: Table<Image>, t': Table<Image>, ps: seq<PlaylistInput>)
    requires ImagesAdded(first, t, t', ps)
    ensures t'.Valid()
    ensures forall k :: k in t.rows ==> k in t'.rows && t'.rows[k] == t.rows[k]
    ensures forall k :: k in t'.rows && k !in t.rows ==>
              var m := t'.rows[k];
              first <= m.playlistId < first + |ps| && ImageInput(m.url, m.duration) in ps[m.playlistId - first].images
  {
    var rs := NewImageRows(first, ps);
    forall k | k in t'.rows && k !in t.rows
      ensures var m := t'.rows[k];
              first <= m.playlistId < first + |ps| && ImageInput(m.url, m.duration) in ps[m.playlistId - first].images
    {
      assert t'.rows[t.next + (k - t.next)] == rs[k - t.next];
      NewImageRowsBelong(first, ps, k - t.next);
    }
  }

  lemma VideosAddedBelong(first: int, t: Table<Video>, t': Table<Video>, ps: seq<PlaylistInput>)
    requires VideosAdded(first, t, t', ps)
    ensures t'.Valid()
    ensures forall k :: k in t.rows ==> k in t'.rows && t'.rows[k] == t.rows[k]
    ensures forall k :: k in t'.rows && k !in t.rows ==>
              var v := t'.rows[k];
              first <= v.playlistId < first + |ps| && v.url in ps[v.playlistId - first].videos
  {
    var rs := NewVideoRows(first, ps);
    forall k | k in t'.rows && k !in t.rows
      ensures var v := t'.rows[k];
              first <= v.playlistId < first + |ps| && v.url in ps[v.playlistId - first].videos
    {
      assert t'.rows[t.next + (k - t.next)] == rs[k - t.next];
      NewVideoRowsBelong(first, ps, k - t.next);
    }
  }

  /** One playlist row, then its image rows, then its video rows. */
  function AddPlaylist(db: Db, setup: int, p: PlaylistInput): (db': Db)
    requires db.playlists.Valid() && db.images.Valid() && db.videos.Valid()
    ensures db'.playlists.Valid() && db'.images.Valid() && db'.videos.Valid()
    ensures db'.devices == db.devices && db'.setups == db.setups
  {
    var id := db.playlists.next;
    db.(playlists := Insert(db.playlists, PlaylistRow(setup, p)).0,
        images := InsertAll(db.images, ImageRows(id, p.images)),
        videos := InsertAll(db.videos, VideoRows(id, p.videos)))
  }

  lemma NewImagesOf(id: int, t: Table<Image>, p: PlaylistInput)
    requires t.Valid()
    ensures ImagesAdded(id, t, InsertAll(t, ImageRows(id, p.images)), [p])
  {
    NewImageRowsOfOne(id, p);
  }

  lemma NewImageRowsOfOne(first: int, p: PlaylistInput)
    ensures NewImageRows(first, [p]) == ImageRows(first, p.images)
  {
    var one := [p];
    assert one[1..] == [];
    assert NewImageRows(first + 1, one[1..]) == [];
    assert NewImageRows(first, one) == ImageRows(first, p.images) + [];
    assert ImageRows(first, p.images) + [] == ImageRows(first, p.images);
  }

  lemma NewVideosOf(id: int, t: Table<Video>, p: PlaylistInput)
    requires t.Valid()
    ensures VideosAdded(id, t, InsertAll(t, VideoRows(id, p.videos)), [p])
  {
    NewVideoRowsOfOne(id, p);
  }

  lemma NewVideoRowsOfOne(first: int, p: PlaylistInput)
    ensures NewVideoRows(first, [p]) == VideoRows(first, p.videos)
  {
    var one := [p];
    assert one[1..] == [];
    assert NewVideoRows(first + 1, one[1..]) == [];
    assert NewVideoRows(first, one) == VideoRows(first, p.videos) + [];
    assert VideoRows(first, p.videos) + [] == VideoRows(first, p.videos);
  }

  lemma PlaylistsCompose(t0: Table<Playlist>, t1: Table<Playlist>, t2: Table<Playlist>, setup: int, ps: seq<PlaylistInput>)
    requires ps != [] && PlaylistsAdded(t0, t1, setup, [ps[0]]) && PlaylistsAdded(t1, t2, setup, ps[1..])
    ensures PlaylistsAdded(t0, t2, setup, ps)
  {
    forall i | 0 <= i < |ps|
      ensures t2.rows[t0.next + i] == PlaylistRow(setup, ps[i])
    {
      if i == 0 {
        assert t1.rows[t0.next + 0] == PlaylistRow(setup, [ps[0]][0]);
        assert t0.next in t1.rows;
      } else {
        assert ps[i] == ps[1..][i - 1];
        assert t0.next + i == t1.next + (i - 1);
      }
    }
  }

  lemma ImagesCompose(first: int, t0: Table<Image>, t1: Table<Image>, t2: Table<Image>, ps: seq<PlaylistInput>)
    requires ps != [] && ImagesAdded(first, t0, t1, [ps[0]]) && ImagesAdded(first + 1, t1, t2, ps[1..])
    ensures ImagesAdded(first, t0, t2, ps)
  {
    var a, b := ImageRows(first, ps[0].images), NewImageRows(first + 1, ps[1..]);
    NewImageRowsOfOne(first, ps[0]);
    assert NewImageRows(first, ps) == a + b;
    forall i | 0 <= i < |a + b|
      ensures t2.rows[t0.next + i] == (a + b)[i]
    {
      if i < |a| {
        assert t1.rows[t0.next + i] == a[i];
      } else {
        assert t2.rows[t1.next + (i - |a|)] == b[i - |a|];
      }
    }
  }


  lemma VideosCompose(first: int, t0: Table<Video>, t1: Table<Video>, t2: Table<Video>, ps: seq<PlaylistInput>)
    requires ps != [] && VideosAdded(first, t0, t1, [ps[0]]) && VideosAdded(first + 1, t1, t2, ps[1..])
    ensures VideosAdded(first, t0, t2, ps)
  {
    var a, b := VideoRows(first, ps[0].videos), NewVideoRows(first + 1, ps[1..]);
    NewVideoRowsOfOne(first, ps[0]);
    assert NewVideoRows(first, ps) == a + b;
    forall i | 0 <= i < |a + b|
      ensures t2.rows[t0.next + i] == (a + b)[i]
    {
      if i < |a| {
        assert t1.rows[t0.next + i] == a[i];
      } else {
        assert t2.rows[t1.next + (i - |a|)] == b[i - |a|];
      }
    }
  }


  /** The insert loop of create_setup and update_setup: each playlist in turn
      is checked and, if it passes, inserted with its media; the first that
      fails aborts the request. */
  function AddPlaylists(db: Db, setup: int, ps: seq<PlaylistInput>): (r: Result<Db>)
    requires db.playlists.Valid() && db.images.Valid() && db.videos.Valid()
    ensures r.Ok? <==> FirstRefusal(ps).Pass?
    ensures r.Ok? <==> forall i :: 0 <= i < |ps| ==> CheckPlaylist(ps[i]).Pass?
    ensures r.Err? ==> r.reason.PlaylistWithoutMedia? || r.reason.StartNotBeforeEnd?
    ensures r.Ok? ==> r.value.devices == db.devices && r.value.setups == db.setups
    ensures r.Ok? ==> r.value.playlists.Valid() && r.value.images.Valid() && r.value.videos.Valid()
    decreases |ps|
  {
    if ps == [] then Ok(db)
    else if CheckPlaylist(ps[0]).Fail? then Err(CheckPlaylist(ps[0]).reason)
    else AddPlaylists(AddPlaylist(db, setup, ps[0]), setup, ps[1..])
  }

  /** The verdict of the checks over a whole request: the first failing
      playlist's reason, or a pass when every playlist passes. */
  function FirstRefusal(ps: seq<PlaylistInput>): (c: Check)
    ensures c.Pass? <==> forall i :: 0 <= i < |ps| ==> CheckPlaylist(ps[i]).Pass?
    decreases |ps|
  {
    if ps == [] then Pass
    else if CheckPlaylist(ps[0]).Fail? then CheckPlaylist(ps[0])
    else
      var c := FirstRefusal(ps[1..]);
      assert forall j :: 1 <= j < |ps| ==> ps[j] == ps[1..][j - 1];
      c
  }

  /** The refusal names the first playlist that fails its checks. */
  lemma {:induction false} FirstRefusalIsFirst(ps: seq<PlaylistInput>)
    requires FirstRefusal(ps).Fail?
    ensures exists i :: 0 <= i < |ps| && CheckPlaylist(ps[i]) == FirstRefusal(ps)
                        && forall j :: 0 <= j < i ==> CheckPlaylist(ps[j]).Pass?
    decreases |ps|
  {
    if CheckPlaylist(ps[0]).Pass? {
      FirstRefusalIsFirst(ps[1..]);
      var i :| 0 <= i < |ps[1..]| && CheckPlaylist(ps[1..][i]) == FirstRefusal(ps[1..])
               && forall j :: 0 <= j < i ==> CheckPlaylist(ps[1..][j]).Pass?;
      assert ps[i + 1] == ps[1..][i];
      assert forall j :: 1 <= j < i + 1 ==> ps[j] == ps[1..][j - 1];
    } else {
      assert CheckPlaylist(ps[0]) == FirstRefusal(ps);
    }
  }

  /** A refused insert loop reports the first playlist that fails its checks. */
  lemma {:induction false} AddPlaylistsFirstFailure(db: Db, setup: int, ps: seq<PlaylistInput>)
    requires db.playlists.Valid() && db.images.Valid() && db.videos.Valid()
    requires AddPlaylists(db, setup, ps).Err?
    ensures FirstRefusal(ps) == Fail(AddPlaylists(db, setup, ps).reason)
    decreases |ps|
  {
    if CheckPlaylist(ps[0]).Pass? {
      AddPlaylistsFirstFailure(AddPlaylist(db, setup, ps[0]), setup, ps[1..]);
    }
  }

  /** What a successful insert loop writes: the playlists in request order
      under consecutive new ids, each with exactly its own media. */
  lemma {:induction false} AddPlaylistsAdds(db: Db, setup: int, ps: seq<PlaylistInput>)
    requires db.playlists.Valid() && db.images.Valid() && db.videos.Valid()
    requires AddPlaylists(db, setup, ps).Ok?
    ensures Added(db, AddPlaylists(db, setup, ps).value, setup, ps)
    decreases |ps|
  {
    if ps == [] {
      assert NewImageRows(db.playlists.next, ps) == [];
      assert NewVideoRows(db.playlists.next, ps) == [];
    } else {
      var db1 := AddPlaylist(db, setup, ps[0]);
      AddPlaylistsStep(db, setup, ps);
      AddPlaylistWrites(db, setup, ps[0]);
      AddPlaylistsAdds(db1, setup, ps[1..]);
      AddedCompose(db, db1, AddPlaylists(db1, setup, ps[1..]).value, setup, ps);
    }
  }

  /** One playlist's writes followed by the rest's are the whole request's. */
  lemma AddedCompose(db0: Db, db1: Db, db2: Db, setup: int, ps: seq<PlaylistInput>)
    requires ps != [] && Added(db0, db1, setup, [ps[0]]) && Added(db1, db2, setup, ps[1..])
    ensures Added(db0, db2, setup, ps)
  {
    PlaylistsCompose(db0.playlists, db1.playlists, db2.playlists, setup, ps);
    ImagesCompose(db0.playlists.next, db0.images, db1.images, db2.images, ps);
    VideosCompose(db0.playlists.next, db0.videos, db1.videos, db2.videos, ps);
  }

  /** One turn of the insert loop: a successful loop inserted its first
      playlist and then ran on the rest. */
  lemma AddPlaylistsStep(db: Db, setup: int, ps: seq<PlaylistInput>)
    requires db.playlists.Valid() && db.images.Valid() && db.videos.Valid()
    requires ps != [] && AddPlaylists(db, setup, ps).Ok?
    ensures AddPlaylists(AddPlaylist(db, setup, ps[0]), setup, ps[1..]) == AddPlaylists(db, setup, ps)
  {
    assert CheckPlaylist(ps[0]).Pass?;
  }

  /** What one insert writes. */
  lemma AddPlaylistWrites(db: Db, setup: int, p: PlaylistInput)
    requires db.playlists.Valid() && db.images.Valid() && db.videos.Valid()
    ensures Added(db, AddPlaylist(db, setup, p), setup, [p])
  {
    NewImagesOf(db.playlists.next, db.images, p);
    NewVideosOf(db.playlists.next, db.videos, p);
  }

  // ---------------------------------------------------------------------------
  // Device links

  /** The link loop of create_setup: every listed device is pointed at the
      setup; the first id without a device aborts the request. */
  function LinkDevices(t: Table<Device>, setup: int, ids: seq<int>): (r: Result<Table<Device>>)
    ensures r.Ok? <==> forall i :: 0 <= i < |ids| ==> ids[i] in t.rows
    ensures r.Err? ==> r.reason.DeviceNotFound? && r.reason.device in ids && r.reason.device !in t.rows
    ensures r.Ok? ==> r.value.next == t.next && r.value.rows.Keys == t.rows.Keys
    ensures r.Ok? ==> forall k :: k in t.rows ==>
                        r.value.rows[k] == (if k in ids then t.rows[k].(setupId := Some(setup)) else t.rows[k])
    decreases |ids|
  {
    if ids == [] then Ok(t)
    else if ids[0] !in t.rows then Err(DeviceNotFound(ids[0]))
    else
      var r := LinkDevices(Put(t, ids[0], t.rows[ids[0]].(setupId := Some(setup))), setup, ids[1..]);
      assert forall i :: 1 <= i < |ids| ==> ids[i] == ids[1..][i - 1];
      assert forall k :: k in ids <==> k == ids[0] || k in ids[1..];
      r
  }

  lemma LinkKeepsDevicesOk(db: Db, db': Db, setup: int, ids: seq<int>)
    requires DevicesOk(db) && LinkDevices(db.devices, setup, ids).Ok?
    requires db'.devices == LinkDevices(db.devices, setup, ids).value
    requires db.setups.rows.Keys <= db'.setups.rows.Keys && setup in db'.setups.rows
    ensures DevicesOk(db')
  {
    var was := db.devices.rows;
    var now := db'.devices.rows;
    assert forall k :: k in now ==> now[k].name == was[k].name && now[k].apiKey == was[k].apiKey
                                     && now[k].location == was[k].location;
  }

  // ---------------------------------------------------------------------------
  // create_setup

  /** The database writes of create_setup, in the order the handler makes
      them: the refusals checked up front, then the setup row, the playlists
      with their media, and the device links. The answer carries the new
      database and the id of the new setup. */
  function CreateSetupWrites(db: Db, data: SetupInput): (r: Result<(Db, int)>)
    requires TablesOk(db)
    ensures r.Ok? ==>
      var (db', id) := r.value;
      && id !in db.setups.rows
      && db'.setups.rows == db.setups.rows[id := Setup(data.name)]
      && db'.devices.rows.Keys == db.devices.rows.Keys
      && (forall k :: k in db.devices.rows ==>
            db'.devices.rows[k] == if k in data.devices then db.devices.rows[k].(setupId := Some(id))
                                   else db.devices.rows[k])
  {
    if SetupNameTaken(db, data.name) then Err(SetupNameInUse(data.name))
    else if !NamesUnique(data.playlists) then Err(PlaylistNamesNotUnique)
    else match CheckDays(data.playlists, 0)
      case Fail(e) => Err(e)
      case Pass => CommitSetup(db, data)
  }

  /** The inserts of create_setup once its up-front checks have passed: the
      setup row, its playlists with their media, then the device links. */
  function CommitSetup(db: Db, data: SetupInput): (r: Result<(Db, int)>)
    requires TablesOk(db)
    ensures r.Ok? <==> && (forall i :: 0 <= i < |data.playlists| ==> CheckPlaylist(data.playlists[i]).Pass?)
                       && (forall i :: 0 <= i < |data.devices| ==> data.devices[i] in db.devices.rows)
    ensures r.Err? && r.reason.DeviceNotFound? ==> r.reason.device in data.devices && r.reason.device !in db.devices.rows
    ensures r.Ok? ==> r.value.1 == db.setups.next
  {
    var id := db.setups.next;
    match AddPlaylists(db.(setups := Insert(db.setups, Setup(data.name)).0), id, data.playlists)
    case Err(e) => Err(e)
    case Ok(db1) =>
      match LinkDevices(db1.devices, id, data.devices)
      case Err(e) => Err(e)
      case Ok(devices) => Ok((db1.(devices := devices), id))
  }

  /** create_setup refuses a taken setup name (409) first, then repeated
      playlist names (400). */
  lemma CreateSetupRefusesNames(db: Db, data: SetupInput)
    requires TablesOk(db)
    ensures SetupNameTaken(db, data.name) ==> CreateSetupWrites(db, data) == Err(SetupNameInUse(data.name))
    ensures !SetupNameTaken(db, data.name) && !NamesUnique(data.playlists) ==>
              CreateSetupWrites(db, data) == Err(PlaylistNamesNotUnique)
  {
  }

  /** create_setup succeeds exactly when the name is free, the playlist names
      are distinct, no two playlists overlap on a day, every playlist has
      media and starts before it ends, and every listed device exists. */
  lemma CreateSetupAcceptance(db: Db, data: SetupInput)
    requires TablesOk(db)
    ensures CreateSetupWrites(db, data).Ok? <==>
      && !SetupNameTaken(db, data.name)
      && NamesUnique(data.playlists)
      && CheckDays(data.playlists, 0).Pass?
      && (forall i :: 0 <= i < |data.playlists| ==> CheckPlaylist(data.playlists[i]).Pass?)
      && (forall i :: 0 <= i < |data.devices| ==> data.devices[i] in db.devices.rows)
  {
  }

  /** After a successful create_setup, every stored playlist has an image or
      a video and starts before it ends, and no two of them overlap on a day. */
  lemma CreateSetupNoOverlap(db: Db, data: SetupInput)
    requires TablesOk(db) && CreateSetupWrites(db, data).Ok?
    ensures forall p | p in data.playlists :: |p.images| > 0 || |p.videos| > 0
    ensures StartsBeforeEnds(data.playlists) && NoSameDayOverlap(data.playlists)
  {
    var ps := data.playlists;
    CreateSetupAcceptance(db, data);
    forall p | p in ps
      ensures (|p.images| > 0 || |p.videos| > 0) && Start(p) < End(p)
    {
      var i :| 0 <= i < |ps| && ps[i] == p;
      assert CheckPlaylist(ps[i]).Pass?;
    }
    ChecksPassIffNoOverlap(ps);
  }

  /** A 404 from create_setup names a listed device that does not exist. */
  lemma CreateSetupMissingDevice(db: Db, data: SetupInput)
    requires TablesOk(db)
    requires CreateSetupWrites(db, data).Err? && CreateSetupWrites(db, data).reason.DeviceNotFound?
    ensures CreateSetupWrites(db, data).reason.device in data.devices
    ensures CreateSetupWrites(db, data).reason.device !in db.devices.rows
  {
  }

  /** What create_setup publishes after its commit: one `update_setup` per
      listed device, every one of them on the instruction channel of the
      device the link loop looked up last. */
  function LastDeviceNotices(ids: seq<int>): (ps: seq<Publish>)
    ensures |ps| == |ids|
    ensures forall i :: 0 <= i < |ps| ==> ps[i] == Publish(Instructions(ids[|ids| - 1]), UpdateSetupInstruction)
  {
    seq(|ids|, i requires 0 <= i < |ids| => Publish(Instructions(ids[|ids| - 1]), UpdateSetupInstruction))
  }

  /** POST /setups/, as written: the writes of CreateSetupWrites, then one
      publish per listed device, all on the last listed device's channel. */
  function CreateSetup(st: State, data: SetupInput): (r: Result<(State, int)>)
    requires TablesOk(st.db)
    ensures r.Ok? <==> CreateSetupWrites(st.db, data).Ok?
    ensures r.Err? ==> r.reason == CreateSetupWrites(st.db, data).reason
    ensures r.Ok? ==> (r.value.0.db, r.value.1) == CreateSetupWrites(st.db, data).value
    ensures r.Ok? ==> r.value.0.redis == Emit(st.redis, LastDeviceNotices(data.devices))
  {
    match CreateSetupWrites(st.db, data)
    case Err(e) => Err(e)
    case Ok((db, id)) => Ok((State(db, Emit(st.redis, LastDeviceNotices(data.devices))), id))
  }

  /** The notices the listed devices evidently should get: one on each listed
      device's own channel. */
  function CreateSetupNotifyingEach(st: State, data: SetupInput): (r: Result<(State, int)>)
    requires TablesOk(st.db)
    ensures r.Ok? <==> CreateSetup(st, data).Ok?
    ensures r.Err? ==> r == CreateSetup(st, data)
    ensures r.Ok? ==> r.value.0.db == CreateSetup(st, data).value.0.db && r.value.1 == CreateSetup(st, data).value.1
    ensures r.Ok? ==> r.value.0.redis == Emit(st.redis, UpdateNotices(data.devices))
  {
    match CreateSetupWrites(st.db, data)
    case Err(e) => Err(e)
    case Ok((db, id)) => Ok((State(db, Emit(st.redis, UpdateNotices(data.devices))), id))
  }

  /** A device is sent an instruction by UpdateNotices exactly when it is
      listed. */
  lemma EachListedDeviceNotified(ids: seq<int>)
    ensures forall k :: Publish(Instructions(k), UpdateSetupInstruction) in UpdateNotices(ids) <==> k in ids
  {
    var ps := UpdateNotices(ids);
    forall k | k in ids
      ensures Publish(Instructions(k), UpdateSetupInstruction) in ps
    {
      var i :| 0 <= i < |ids| && ids[i] == k;
      assert ps[i] == Publish(Instructions(k), UpdateSetupInstruction);
    }
  }

  /** With two different devices listed, the first gets no instruction at
      all from create_setup as written. */
  lemma CreateSetupSkipsEarlierDevices(st: State, data: SetupInput, k: int)
    requires TablesOk(st.db) && CreateSetup(st, data).Ok?
    requires k in data.devices && k != data.devices[|data.devices| - 1]
    ensures var log := CreateSetup(st, data).value.0.redis.log;
            st.redis.log <= log && Publish(Instructions(k), UpdateSetupInstruction) !in log[|st.redis.log|..]
  {
    NewLogEntries(st.redis, LastDeviceNotices(data.devices));
    LastDeviceNoticesMiss(data.devices, k);
  }

  lemma NewLogEntries(r: Redis, ps: seq<Publish>)
    ensures r.log <= Emit(r, ps).log && Emit(r, ps).log[|r.log|..] == ps
  {
  }

  lemma LastDeviceNoticesMiss(ids: seq<int>, k: int)
    requires k in ids && k != ids[|ids| - 1]
    ensures Publish(Instructions(k), UpdateSetupInstruction) !in LastDeviceNotices(ids)
  {
  }

  /** The corrected handler notifies every listed device, and no other. */
  lemma NotifyingEachReachesListedDevices(st: State, data: SetupInput, k: int)
    requires TablesOk(st.db) && CreateSetupNotifyingEach(st, data).Ok?
    ensures var log := CreateSetupNotifyingEach(st, data).value.0.redis.log;
            st.redis.log <= log && (Publish(Instructions(k), UpdateSetupInstruction) in log[|st.redis.log|..] <==> k in data.devices)
  {
    NewLogEntries(st.redis, UpdateNotices(data.devices));
    EachListedDeviceNotified(data.devices);
  }

  // ---------------------------------------------------------------------------
  // Invariant preservation: inserts

  /** A new playlist row stored from a checked request satisfies the row
      invariant. */
  lemma NewPlaylistRowOk(setup: int, p: PlaylistInput)
    requires PlaylistInputOk(p) && CheckPlaylist(p).Pass?
    ensures PlaylistRowOk(PlaylistRow(setup, p))
  {
  }

  lemma PlaylistsOkAfterAdd(db: Db, db': Db, setup: int, ps: seq<PlaylistInput>)
    requires PlaylistsOk(db) && setup in db.setups.rows
    requires forall i :: 0 <= i < |ps| ==> PlaylistInputOk(ps[i]) && CheckPlaylist(ps[i]).Pass?
    requires PlaylistsAdded(db.playlists, db'.playlists, setup, ps) && db'.setups == db.setups
    ensures PlaylistsOk(db')
  {
    var first := db.playlists.next;
    forall k | k in db'.playlists.rows
      ensures db'.playlists.rows[k].setupId in db'.setups.rows && PlaylistRowOk(db'.playlists.rows[k])
    {
      if k !in db.playlists.rows {
        assert db'.playlists.rows[first + (k - first)] == PlaylistRow(setup, ps[k - first]);
        NewPlaylistRowOk(setup, ps[k - first]);
      }
    }
  }

  lemma MediaOkAfterAdd(db: Db, db': Db, setup: int, ps: seq<PlaylistInput>)
    requires MediaOk(db)
    requires forall i :: 0 <= i < |ps| ==> PlaylistInputOk(ps[i])
    requires PlaylistsAdded(db.playlists, db'.playlists, setup, ps)
    requires ImagesAdded(db.playlists.next, db.images, db'.images, ps)
    requires VideosAdded(db.playlists.next, db.videos, db'.videos, ps)
    ensures MediaOk(db')
  {
    var first := db.playlists.next;
    ImagesAddedBelong(first, db.images, db'.images, ps);
    VideosAddedBelong(first, db.videos, db'.videos, ps);
    forall k | k in db'.images.rows
      ensures var i := db'.images.rows[k];
              i.playlistId in db'.playlists.rows && ImageOk(ImageInput(i.url, i.duration))
    {
      if k !in db.images.rows {
        var m := db'.images.rows[k];
        assert PlaylistInputOk(ps[m.playlistId - first]);
      }
    }
    forall k | k in db'.videos.rows
      ensures var v := db'.videos.rows[k];
              v.playlistId in db'.playlists.rows && VideoOk(v.url)
    {
      if k !in db.videos.rows {
        var v := db'.videos.rows[k];
        assert PlaylistInputOk(ps[v.playlistId - first]);
      }
    }
  }

  lemma DevicesOkWhenSetupsGrow(db: Db, db': Db)
    requires DevicesOk(db) && db'.devices == db.devices && db.setups.rows.Keys <= db'.setups.rows.Keys
    ensures DevicesOk(db')
  {
  }

  lemma PlaylistsOkWhenSetupsGrow(db: Db, db': Db)
    requires PlaylistsOk(db) && db'.playlists == db.playlists && db.setups.rows.Keys <= db'.setups.rows.Keys
    ensures PlaylistsOk(db')
  {
  }

  lemma InsertSetupKeepsDbOk(db: Db, name: string)
    requires DbOk(db) && NameOk(name) && !SetupNameTaken(db, name)
    ensures DbOk(db.(setups := Insert(db.setups, Setup(name)).0))
  {
    var db0 := db.(setups := Insert(db.setups, Setup(name)).0);
    DevicesOkWhenSetupsGrow(db, db0);
    PlaylistsOkWhenSetupsGrow(db, db0);
  }

  lemma AddPlaylistsKeepsDbOk(db: Db, setup: int, ps: seq<PlaylistInput>)
    requires DbOk(db) && setup in db.setups.rows
    requires forall p :: p in ps ==> PlaylistInputOk(p)
    requires AddPlaylists(db, setup, ps).Ok?
    ensures DbOk(AddPlaylists(db, setup, ps).value)
  {
    var db' := AddPlaylists(db, setup, ps).value;
    AddPlaylistsAdds(db, setup, ps);
    PlaylistsOkAfterAdd(db, db', setup, ps);
    MediaOkAfterAdd(db, db', setup, ps);
  }

  lemma LinkKeepsDbOk(db: Db, setup: int, ids: seq<int>)
    requires DbOk(db) && setup in db.setups.rows && LinkDevices(db.devices, setup, ids).Ok?
    ensures DbOk(db.(devices := LinkDevices(db.devices, setup, ids).value))
  {
    LinkKeepsDevicesOk(db, db.(devices := LinkDevices(db.devices, setup, ids).value), setup, ids);
  }

  lemma CommitSetupKeepsDbOk(db: Db, data: SetupInput)
    requires DbOk(db) && SetupInputOk(data) && !SetupNameTaken(db, data.name)
    requires CommitSetup(db, data).Ok?
    ensures DbOk(CommitSetup(db, data).value.0)
  {
    var id := db.setups.next;
    var db0 := db.(setups := Insert(db.setups, Setup(data.name)).0);
    InsertSetupKeepsDbOk(db, data.name);
    AddPlaylistsKeepsDbOk(db0, id, data.playlists);
    var db1 := AddPlaylists(db0, id, data.playlists).value;
    LinkKeepsDbOk(db1, id, data.devices);
  }

  /** A successful create_setup keeps every table invariant: the new setup's
      name is unique, its playlists are well-formed and belong to it, its media
      belong to its playlists, and the linked devices point at it. */
  lemma CreateSetupKeepsValid(st: State, data: SetupInput)
    requires Valid(st) && SetupInputOk(data) && CreateSetup(st, data).Ok?
    ensures Valid(CreateSetup(st, data).value.0)
  {
    CommitSetupKeepsDbOk(st.db, data);
  }
}
