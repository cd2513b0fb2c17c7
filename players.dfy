/**
 * The Player Manager: each embedded player (a `YT.Player` of the YouTube
 * IFrame API) reduced to the state the dashboard reads and changes, the
 * per-slot controls, and the reconciliation of the slot-index to player map
 * with the grid that `initPlayersForGrid` performs.
 */
module Players {

  /** The volume the `onReady` callback of a new player sets. */
  const FullVolume: int := 100

  /**
   * An embedded player.  `handle` stands for the identity of the `YT.Player`
   * object: players are numbered in the order they are constructed, so a
   * player that is reused keeps its handle and a new one gets a new handle.
   */
  datatype Player = Player(handle: nat, video: string, playing: bool, muted: bool, volume: int)

  /**
   * A player as `new YT.Player` leaves it once its `onReady` callback has
   * run: the player variables `autoplay: 1` and `mute: 1` start it muted,
   * then `playVideo()` and `setVolume(100)`.
   */
  function Created(handle: nat, vid: string): (p: Player)
    ensures p.handle == handle && p.video == vid
    ensures p.playing && p.muted && p.volume == FullVolume
  {
    Player(handle, vid, true, true, FullVolume)
  }

  /** `loadVideoById(vid)`: the same player loads and starts `vid`; mute and volume stay. */
  function LoadVideo(p: Player, vid: string): (q: Player)
    ensures q.video == vid && q.playing
    ensures q.(video := p.video, playing := p.playing) == p
  {
    p.(video := vid, playing := true)
  }

  /**
   * What `initPlayersForGrid` does with a player that already exists at a slot
   * index: it keeps the player, and reloads it only when its video is not the
   * slot's.
   */
  function Rebind(p: Player, vid: string): (q: Player)
    ensures q.handle == p.handle && q.video == vid
    ensures q.muted == p.muted && q.volume == p.volume
    ensures p.video == vid ==> q == p
  {
    if p.video == vid then p else LoadVideo(p, vid)
  }

  // ------------------------------------------------------- per-slot controls

  /** `togglePlay`: a playing player is paused, any other is played; nothing else changes. */
  function TogglePlay(p: Player): (q: Player)
    ensures q.playing == !p.playing
    ensures q.(playing := p.playing) == p
  {
    p.(playing := !p.playing)
  }

  /** `toggleMute`: a muted player is unmuted and an unmuted one muted; nothing else changes. */
  function ToggleMute(p: Player): (q: Player)
    ensures q.muted == !p.muted
    ensures q.(muted := p.muted) == p
  {
    p.(muted := !p.muted)
  }

  /**
   * `setVolume(v)`: the volume becomes `v`; a positive volume also unmutes and
   * any other mutes.  Video, handle and playback stay.
   */
  function SetVolume(p: Player, v: int): (q: Player)
    ensures q.volume == v
    ensures q.muted <==> v <= 0
    ensures q.(volume := p.volume, muted := p.muted) == p
  {
    p.(volume := v, muted := !(v > 0))
  }

  /** Toggling playback twice restores the player. */
  lemma TogglePlayTwice(p: Player)
    ensures TogglePlay(TogglePlay(p)) == p
  {
  }

  /** Toggling mute twice restores the player. */
  lemma ToggleMuteTwice(p: Player)
    ensures ToggleMute(ToggleMute(p)) == p
  {
  }

  /** Of two volume changes only the last one is seen. */
  lemma SetVolumeLastWins(p: Player, a: int, b: int)
    ensures SetVolume(SetVolume(p, a), b) == SetVolume(p, b)
  {
  }

  /** The worked example: volume 0 mutes, and a positive volume afterwards unmutes. */
  lemma VolumeZeroThenPositive(p: Player, v: int)
    requires v > 0
    ensures SetVolume(p, 0).muted
    ensures !SetVolume(SetVolume(p, 0), v).muted
  {
  }

  // ---------------------------------------------------------- reconciliation

  /** The slot-index to player map (`players` in app.js). */
  type PlayerMap = map<nat, Player>

  /**
   * `ps` agrees with the grid whose slot videos are `vids`: every player sits
   * at a slot index and plays that slot's video, handles are below `next`,
   * and no two slots share a player.
   */
  ghost predicate Bound(ps: PlayerMap, vids: seq<string>, next: nat) {
    && (forall k :: k in ps ==> k < |vids| && ps[k].video == vids[k] && ps[k].handle < next)
    && (forall a, b :: a in ps && b in ps && a != b ==> ps[a].handle != ps[b].handle)
  }

  /** One step of `initPlayersForGrid` at slot index `idx`, which has a container. */
  function ReconcileSlot(ps: PlayerMap, idx: nat, vid: string, next: nat): (r: (PlayerMap, nat))
    ensures r.0.Keys == ps.Keys + {idx} && r.0[idx].video == vid
    ensures forall k :: k in ps && k != idx ==> r.0[k] == ps[k]
    ensures idx in ps ==> r.1 == next && r.0[idx] == Rebind(ps[idx], vid)
    ensures idx !in ps ==> r.1 == next + 1 && r.0[idx] == Created(next, vid)
  {
    if idx in ps then (ps[idx := Rebind(ps[idx], vid)], next)
    else (ps[idx := Created(next, vid)], next + 1)
  }

  /**
   * `initPlayersForGrid` from slot index `from` on: the map and the next
   * handle after visiting the slot indices in increasing order, skipping
   * those without a player container.
   */
  function Reconcile(ps: PlayerMap, vids: seq<string>, containers: set<nat>, from: nat, next: nat): (r: (PlayerMap, nat))
    ensures next <= r.1
    ensures forall k :: k in r.0 <==> k in ps || (from <= k < |vids| && k in containers)
    decreases |vids| - from
  {
    if from >= |vids| then (ps, next)
    else if from !in containers then Reconcile(ps, vids, containers, from + 1, next)
    else
      var step := ReconcileSlot(ps, from, vids[from], next);
      Reconcile(step.0, vids, containers, from + 1, step.1)
  }

  /**
   * What reconciliation does at one slot index `k`.  An index from `from` on
   * that has a container ends with a player bound to its slot's video: the
   * player that was there, reloaded only if its video differed, or, when
   * there was none, a newly created player with a new handle.  Every other
   * index keeps what it had.
   */
  lemma {:induction false} ReconcileAt(ps: PlayerMap, vids: seq<string>, containers: set<nat>, from: nat, next: nat, k: nat)
    ensures next <= Reconcile(ps, vids, containers, from, next).1
    ensures var r := Reconcile(ps, vids, containers, from, next);
      from <= k < |vids| && k in containers ==>
        && k in r.0 && r.0[k].video == vids[k]
        && (k in ps ==> r.0[k] == Rebind(ps[k], vids[k]))
        && (k !in ps ==> next <= r.0[k].handle < r.1 && r.0[k] == Created(r.0[k].handle, vids[k]))
    ensures var r := Reconcile(ps, vids, containers, from, next);
      !(from <= k < |vids| && k in containers) ==>
        (k in r.0 <==> k in ps) && (k in ps ==> r.0[k] == ps[k])
    decreases |vids| - from
  {
    if from < |vids| {
      if from !in containers {
        ReconcileAt(ps, vids, containers, from + 1, next, k);
      } else {
        var step := ReconcileSlot(ps, from, vids[from], next);
        ReconcileAt(step.0, vids, containers, from + 1, step.1, k);
      }
    }
  }

  /**
   * On a map bound to the grid every player already plays its slot's video,
   * so reconciliation keeps it as it is and never needs to reload it.
   */
  lemma BoundPlayerNeedsNoReload(ps: PlayerMap, vids: seq<string>, next: nat, k: nat)
    requires Bound(ps, vids, next) && k in ps
    ensures k < |vids| && Rebind(ps[k], vids[k]) == ps[k]
  {
  }

  /** Reconciliation keeps the map bound to the grid and the handles distinct. */
  lemma {:induction false} ReconcileKeepsBound(ps: PlayerMap, vids: seq<string>, containers: set<nat>, from: nat, next: nat)
    requires Bound(ps, vids, next)
    ensures Bound(Reconcile(ps, vids, containers, from, next).0, vids, Reconcile(ps, vids, containers, from, next).1)
    decreases |vids| - from
  {
    if from < |vids| {
      if from !in containers {
        ReconcileKeepsBound(ps, vids, containers, from + 1, next);
      } else {
        var step := ReconcileSlot(ps, from, vids[from], next);
        assert Bound(step.0, vids, step.1);
        ReconcileKeepsBound(step.0, vids, containers, from + 1, step.1);
      }
    }
  }
}
