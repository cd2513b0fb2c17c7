/**
 * The dashboard's state and its handlers: the Channel Registry
 * (`channelData`), the Grid Controller (`gridSlots`, at most `MAX_SLOTS`
 * slots) and the Player Manager's map (`players`), held by one object whose
 * methods are the event handlers of app.js with the browser dialogs turned
 * into inputs and outcomes.
 */
module Dashboard {
  import opened Wrappers
  import YouTubeId
  import Players

  /** `MAX_SLOTS`: the capacity of the grid. */
  const MaxSlots: nat := 9

  /** A curated channel: its video id, display title, thumbnail URL and the text the user entered. */
  datatype Channel = Channel(id: string, title: string, thumb: string, raw: string)

  /** A grid slot: the video it shows and its cached label. */
  datatype Slot = Slot(vid: string, title: string)

  /** How the add-channel handler ends: no input, `ID inválido.`, `Já adicionado.` or added. */
  datatype AddChannelOutcome = Cancelled | InvalidId | AlreadyAdded | ChannelAdded

  /** How `addToGrid` ends: `Já está no grid.`, `Limite de slots atingido.` or added. */
  datatype GridOutcome = AlreadyInGrid | GridFull | SlotAdded

  /** How the drop handler ends: no channel at the dropped index, or the outcome of `addToGrid`. */
  datatype DropOutcome = NoSuchChannel | Offered(grid: GridOutcome)

  /**
   * The thumbnail URL derived from a video id: the id sits between a fixed
   * 23-character head and a fixed 14-character tail, so it can be read back.
   */
  function ThumbUrl(id: string): (u: string)
    ensures |u| == 23 + |id| + 14 && u[23..23 + |id|] == id
    ensures u[..23] == "https://i.ytimg.com/vi/" && u[23 + |id|..] == "/hqdefault.jpg"
  {
    "https://i.ytimg.com/vi/" + id + "/hqdefault.jpg"
  }

  /** The record the add-channel handler appends for `id`, entered as `raw`. */
  function NewChannel(id: string, raw: string): (c: Channel)
    ensures c.id == id && c.raw == raw && c.thumb == ThumbUrl(id)
    ensures c.title == "Live " + id && c.title != ""
  {
    Channel(id, "Live " + id, ThumbUrl(id), raw)
  }

  // ----------------------------------------------------------- list helpers

  /** `chs.some(c => c.id === id)` */
  predicate HasChannel(chs: seq<Channel>, id: string) {
    exists k :: 0 <= k < |chs| && chs[k].id == id
  }

  /** `slots.some(g => g.vid === vid)` */
  predicate InGrid(slots: seq<Slot>, vid: string) {
    exists k :: 0 <= k < |slots| && slots[k].vid == vid
  }

  /** No two channels share an id. */
  predicate IdsUnique(chs: seq<Channel>) {
    forall a, b :: 0 <= a < b < |chs| ==> chs[a].id != chs[b].id
  }

  /** No two slots show the same video. */
  predicate VidsUnique(slots: seq<Slot>) {
    forall a, b :: 0 <= a < b < |slots| ==> slots[a].vid != slots[b].vid
  }

  /** The videos of the slots, by slot index. */
  function Vids(slots: seq<Slot>): (r: seq<string>)
    ensures |r| == |slots| && forall k :: 0 <= k < |slots| ==> r[k] == slots[k].vid
  {
    seq(|slots|, k requires 0 <= k < |slots| => slots[k].vid)
  }

  /** `chs.find(c => c.id === id)`, as the index of the first channel with that id. */
  function FindChannel(chs: seq<Channel>, id: string): (r: Option<nat>)
    ensures r.Some? ==> r.value < |chs| && chs[r.value].id == id
    ensures r.Some? ==> forall j :: 0 <= j < r.value ==> chs[j].id != id
    ensures r.None? <==> !HasChannel(chs, id)
  {
    if |chs| == 0 then None
    else if chs[0].id == id then Some(0)
    else match FindChannel(chs[1..], id)
      case None => None
      case Some(k) => Some(k + 1)
  }

  /**
   * The label `addToGrid` gives a new slot: `c?.title || vid`, where `c` is
   * the first channel with that id.
   */
  function SlotTitle(chs: seq<Channel>, vid: string): (r: string)
    ensures r == vid || exists k :: 0 <= k < |chs| && chs[k].id == vid && chs[k].title == r
    ensures FindChannel(chs, vid).Some? && chs[FindChannel(chs, vid).value].title != "" ==>
      r == chs[FindChannel(chs, vid).value].title
    ensures FindChannel(chs, vid).None? || chs[FindChannel(chs, vid).value].title == "" ==> r == vid
  {
    match FindChannel(chs, vid)
    case Some(k) => if chs[k].title != "" then chs[k].title else vid
    case None => vid
  }

  /** `s.splice(i, 1)`: entry `i` is deleted and the later entries move down by one. */
  function Splice<T>(s: seq<T>, i: nat): (r: seq<T>)
    ensures i < |s| ==> |r| == |s| - 1 && r[..i] == s[..i]
    ensures i < |s| ==> forall k :: i <= k < |r| ==> r[k] == s[k + 1]
    ensures i >= |s| ==> r == s
  {
    if i < |s| then s[..i] + s[i + 1..] else s
  }

  /** `slots.filter(g => g.vid !== vid)` */
  function WithoutVideo(slots: seq<Slot>, vid: string): (r: seq<Slot>)
    ensures |r| <= |slots|
    ensures forall k :: 0 <= k < |r| ==> r[k].vid != vid && r[k] in slots
    ensures forall k :: 0 <= k < |slots| && slots[k].vid != vid ==> slots[k] in r
  {
    if |slots| == 0 then []
    else if slots[0].vid == vid then WithoutVideo(slots[1..], vid)
    else [slots[0]] + WithoutVideo(slots[1..], vid)
  }

  /** The filter leaves a grid in which no slot shows `vid` as it is. */
  lemma {:induction false} WithoutAbsentVideo(slots: seq<Slot>, vid: string)
    requires !InGrid(slots, vid)
    ensures WithoutVideo(slots, vid) == slots
  {
    if |slots| > 0 {
      var tail := slots[1..];
      assert !InGrid(tail, vid) by {
        forall k | 0 <= k < |tail| ensures tail[k].vid != vid {
          assert tail[k] == slots[k + 1];
        }
      }
      WithoutAbsentVideo(tail, vid);
      assert [slots[0]] + tail == slots;
    }
  }

  /** Dropping the first slot keeps the videos distinct. */
  lemma TailVidsUnique(slots: seq<Slot>)
    requires VidsUnique(slots) && |slots| > 0
    ensures VidsUnique(slots[1..])
  {
    var tail := slots[1..];
    forall a, b | 0 <= a < b < |tail| ensures tail[a].vid != tail[b].vid {
      assert tail[a] == slots[a + 1] && tail[b] == slots[b + 1];
    }
  }

  /** Deleting entry `j > 0` of `s` deletes entry `j - 1` of its tail. */
  lemma SpliceOfTail<T>(s: seq<T>, j: nat)
    requires 0 < j < |s|
    ensures Splice(s, j) == [s[0]] + Splice(s[1..], j - 1)
  {
    var l, r := Splice(s, j), [s[0]] + Splice(s[1..], j - 1);
    assert |l| == |r|;
    forall k | 0 <= k < |l| ensures l[k] == r[k] {
      if 0 < k < j {
        assert l[k] == s[..j][k] && r[k] == s[1..][..j - 1][k - 1];
      }
    }
  }

  /**
   * On a grid without repeated videos the filter is a deletion: it removes
   * the one slot `j` that shows `vid` and keeps the others in order.
   */
  lemma {:induction false} WithoutPresentVideo(slots: seq<Slot>, vid: string, j: nat)
    requires VidsUnique(slots) && j < |slots| && slots[j].vid == vid
    ensures WithoutVideo(slots, vid) == Splice(slots, j)
  {
    var tail := slots[1..];
    if j == 0 {
      assert !InGrid(tail, vid) by {
        forall k | 0 <= k < |tail| ensures tail[k].vid != vid {
          assert tail[k] == slots[k + 1];
        }
      }
      WithoutAbsentVideo(tail, vid);
      assert Splice(slots, 0) == tail;
    } else {
      TailVidsUnique(slots);
      assert tail[j - 1] == slots[j];
      assert slots[0].vid != vid;
      WithoutPresentVideo(tail, vid, j - 1);
      SpliceOfTail(slots, j);
    }
  }

  /** Deleting a slot keeps the videos of the grid distinct. */
  lemma SpliceKeepsVidsUnique(slots: seq<Slot>, i: nat)
    requires VidsUnique(slots)
    ensures VidsUnique(Splice(slots, i))
  {
    var r := Splice(slots, i);
    if i < |slots| {
      forall a, b | 0 <= a < b < |r| ensures r[a].vid != r[b].vid {
        var a', b' := if a < i then a else a + 1, if b < i then b else b + 1;
        assert r[a] == slots[a'] && r[b] == slots[b'];
      }
    }
  }

  /** Deleting a channel keeps the ids of the registry distinct. */
  lemma SpliceKeepsIdsUnique(chs: seq<Channel>, i: nat)
    requires IdsUnique(chs)
    ensures IdsUnique(Splice(chs, i))
  {
    var r := Splice(chs, i);
    if i < |chs| {
      forall a, b | 0 <= a < b < |r| ensures r[a].id != r[b].id {
        var a', b' := if a < i then a else a + 1, if b < i then b else b + 1;
        assert r[a] == chs[a'] && r[b] == chs[b'];
      }
    }
  }

  /** Filtering a video out keeps the videos of the grid distinct. */
  lemma WithoutVideoKeepsVidsUnique(slots: seq<Slot>, vid: string)
    requires VidsUnique(slots)
    ensures VidsUnique(WithoutVideo(slots, vid))
  {
    if InGrid(slots, vid) {
      var j :| 0 <= j < |slots| && slots[j].vid == vid;
      WithoutPresentVideo(slots, vid, j);
      SpliceKeepsVidsUnique(slots, j);
    } else {
      WithoutAbsentVideo(slots, vid);
    }
  }

  // ------------------------------------------------------------------ state

  /** The module-level state of app.js: `channelData`, `gridSlots` and `players`. */
  class AppState {
    var channelData: seq<Channel>
    var gridSlots: seq<Slot>
    var players: Players.PlayerMap
    /** The handle the next player constructed will get. */
    var nextHandle: nat

    /**
     * The grid holds at most `MaxSlots` slots, no video twice, and every
     * player sits at a slot index, plays that slot's video and is shared by
     * no other slot.
     */
    ghost predicate Valid()
      reads this
    {
      && |gridSlots| <= MaxSlots
      && VidsUnique(gridSlots)
      && Players.Bound(players, Vids(gridSlots), nextHandle)
    }

    /** Start-up with the channel list read from the cookie: an empty grid and no players. */
    constructor (saved: seq<Channel>)
      ensures Valid()
      ensures channelData == saved && gridSlots == [] && players == map[] && nextHandle == 0
    {
      channelData := saved;
      gridSlots := [];
      players := map[];
      nextHandle := 0;
    }

    /**
     * The add-channel handler, given what the prompt returned (`None` when it
     * was dismissed).
     */
    method AddChannel(input: Option<string>) returns (outcome: AddChannelOutcome)
      requires Valid()
      modifies this
      ensures Valid()
      ensures gridSlots == old(gridSlots) && players == old(players) && nextHandle == old(nextHandle)
      ensures outcome == Cancelled <==> input.None? || input.value == ""
      ensures outcome == InvalidId <==>
        input.Some? && input.value != "" && YouTubeId.ExtractYouTubeId(input).None?
      ensures outcome == AlreadyAdded <==>
        YouTubeId.ExtractYouTubeId(input).Some?
        && HasChannel(old(channelData), YouTubeId.ExtractYouTubeId(input).value)
      ensures outcome != ChannelAdded ==> channelData == old(channelData)
      ensures outcome == ChannelAdded ==>
        channelData == old(channelData) + [NewChannel(YouTubeId.ExtractYouTubeId(input).value, input.value)]
      ensures IdsUnique(old(channelData)) ==> IdsUnique(channelData)
    {
      if input.None? || input.value == "" {
        return Cancelled;
      }
      var id := YouTubeId.ExtractYouTubeId(input);
      if id.None? {
        return InvalidId;
      }
      if HasChannel(channelData, id.value) {
        return AlreadyAdded;
      }
      channelData := channelData + [NewChannel(id.value, input.value)];
      outcome := ChannelAdded;
    }

    /**
     * The remove button of sidebar row `i`, which was built from the record
     * `shown`: after confirmation it deletes entry `i`, drops every slot that
     * shows `shown.id` and tears down all players.
     */
    method RemoveChannel(i: nat, shown: Channel, confirmed: bool)
      requires Valid()
      modifies this
      ensures Valid()
      ensures nextHandle == old(nextHandle)
      ensures !confirmed ==>
        channelData == old(channelData) && gridSlots == old(gridSlots) && players == old(players)
      ensures confirmed ==> channelData == Splice(old(channelData), i)
      ensures confirmed ==> gridSlots == WithoutVideo(old(gridSlots), shown.id)
      ensures confirmed ==> !InGrid(gridSlots, shown.id) && players == map[]
      ensures IdsUnique(old(channelData)) ==> IdsUnique(channelData)
    {
      if !confirmed {
        return;
      }
      if IdsUnique(channelData) {
        SpliceKeepsIdsUnique(channelData, i);
      }
      WithoutVideoKeepsVidsUnique(gridSlots, shown.id);
      channelData := Splice(channelData, i);
      gridSlots := WithoutVideo(gridSlots, shown.id);
      CleanupPlayers();
    }

    /** The remove button of grid slot `idx`: delete that slot and tear down all players. */
    method RemoveSlot(idx: nat)
      requires Valid()
      modifies this
      ensures Valid()
      ensures channelData == old(channelData) && nextHandle == old(nextHandle)
      ensures gridSlots == Splice(old(gridSlots), idx) && players == map[]
    {
      SpliceKeepsVidsUnique(gridSlots, idx);
      gridSlots := Splice(gridSlots, idx);
      CleanupPlayers();
    }

    /** `addToGrid(vid)` */
    method AddToGrid(vid: string) returns (outcome: GridOutcome)
      requires Valid()
      modifies this
      ensures Valid()
      ensures channelData == old(channelData) && players == old(players) && nextHandle == old(nextHandle)
      ensures outcome == AlreadyInGrid <==> InGrid(old(gridSlots), vid)
      ensures outcome == GridFull <==> !InGrid(old(gridSlots), vid) && |old(gridSlots)| >= MaxSlots
      ensures outcome != SlotAdded ==> gridSlots == old(gridSlots)
      ensures outcome == SlotAdded ==> gridSlots == old(gridSlots) + [Slot(vid, SlotTitle(channelData, vid))]
    {
      if InGrid(gridSlots, vid) {
        return AlreadyInGrid;
      }
      if |gridSlots| >= MaxSlots {
        return GridFull;
      }
      var title := SlotTitle(channelData, vid);
      gridSlots := gridSlots + [Slot(vid, title)];
      outcome := SlotAdded;
    }

    /**
     * The drop handler, given the number the drag payload converts to; any
     * number that is not an index of `channelData` finds no channel.
     */
    method Drop(index: int) returns (outcome: DropOutcome)
      requires Valid()
      modifies this
      ensures Valid()
      ensures channelData == old(channelData) && players == old(players) && nextHandle == old(nextHandle)
      ensures outcome == NoSuchChannel <==> !(0 <= index < |old(channelData)|)
      ensures outcome == NoSuchChannel ==> gridSlots == old(gridSlots)
      ensures outcome.Offered? ==>
        var vid := old(channelData)[index].id;
        && (outcome.grid == AlreadyInGrid <==> InGrid(old(gridSlots), vid))
        && (outcome.grid == GridFull <==> !InGrid(old(gridSlots), vid) && |old(gridSlots)| >= MaxSlots)
        && (outcome.grid != SlotAdded ==> gridSlots == old(gridSlots))
        && (outcome.grid == SlotAdded ==> gridSlots == old(gridSlots) + [Slot(vid, SlotTitle(channelData, vid))])
    {
      if !(0 <= index < |channelData|) {
        return NoSuchChannel;
      }
      var grid := AddToGrid(channelData[index].id);
      outcome := Offered(grid);
    }

    /**
     * `cleanupPlayers`: every player is destroyed and the map emptied.  The
     * removal handlers call it once they have shrunk the grid, when the map
     * may still hold players of slots that are gone.
     */
    method CleanupPlayers()
      modifies this
      ensures |gridSlots| <= MaxSlots && VidsUnique(gridSlots) ==> Valid()
      ensures channelData == old(channelData) && gridSlots == old(gridSlots) && nextHandle == old(nextHandle)
      ensures players == map[]
    {
      players := map[];
    }

    /**
     * `initPlayersForGrid`, given the slot indices whose player container
     * (`player_<idx>`) exists in the page.
     */
    method InitPlayersForGrid(containers: set<nat>)
      requires Valid()
      modifies this
      ensures Valid()
      ensures channelData == old(channelData) && gridSlots == old(gridSlots)
      ensures (players, nextHandle) == Players.Reconcile(old(players), Vids(gridSlots), containers, 0, old(nextHandle))
      ensures forall idx :: 0 <= idx < |gridSlots| && idx in containers ==>
        idx in players && players[idx].video == gridSlots[idx].vid
      ensures forall idx :: idx in old(players) ==>
        idx in players && players[idx].handle == old(players)[idx].handle
      ensures forall idx :: idx in players && idx !in old(players) ==> players[idx].handle >= old(nextHandle)
    {
      ghost var vids := Vids(gridSlots);
      var idx := 0;
      while idx < |gridSlots|
        invariant idx <= |gridSlots|
        invariant channelData == old(channelData) && gridSlots == old(gridSlots)
        invariant Players.Reconcile(players, vids, containers, idx, nextHandle)
               == Players.Reconcile(old(players), vids, containers, 0, old(nextHandle))
      {
        ghost var before := Players.Reconcile(players, vids, containers, idx, nextHandle);
        if idx in containers {
          var vid := gridSlots[idx].vid;
          assert vids[idx] == vid;
          ghost var step := Players.ReconcileSlot(players, idx, vid, nextHandle);
          assert before == Players.Reconcile(step.0, vids, containers, idx + 1, step.1);
          if idx in players {
            if players[idx].video != vid {
              players := players[idx := Players.LoadVideo(players[idx], vid)];
            } else {
              assert players[idx := players[idx]] == players;
            }
          } else {
            players := players[idx := Players.Created(nextHandle, vid)];
            nextHandle := nextHandle + 1;
          }
          assert (players, nextHandle) == step;
        }
        idx := idx + 1;
      }
      Players.ReconcileKeepsBound(old(players), vids, containers, 0, old(nextHandle));
      forall k: nat
        ensures 0 <= k < |gridSlots| && k in containers ==> k in players && players[k].video == gridSlots[k].vid
        ensures k in old(players) ==> k in players && players[k].handle == old(players)[k].handle
        ensures k in players && k !in old(players) ==> players[k].handle >= old(nextHandle)
      {
        Players.ReconcileAt(old(players), vids, containers, 0, old(nextHandle), k);
      }
    }

    /** `togglePlay(idx)`: nothing happens when there is no player at `idx`. */
    method TogglePlay(idx: nat)
      requires Valid()
      modifies this
      ensures Valid()
      ensures channelData == old(channelData) && gridSlots == old(gridSlots) && nextHandle == old(nextHandle)
      ensures players == if idx in old(players)
        then old(players)[idx := Players.TogglePlay(old(players)[idx])] else old(players)
    {
      if idx in players {
        players := players[idx := Players.TogglePlay(players[idx])];
      }
    }

    /** `toggleMute(idx)`: nothing happens when there is no player at `idx`. */
    method ToggleMute(idx: nat)
      requires Valid()
      modifies this
      ensures Valid()
      ensures channelData == old(channelData) && gridSlots == old(gridSlots) && nextHandle == old(nextHandle)
      ensures players == if idx in old(players)
        then old(players)[idx := Players.ToggleMute(old(players)[idx])] else old(players)
    {
      if idx in players {
        players := players[idx := Players.ToggleMute(players[idx])];
      }
    }

    /** `setVolume(idx, v)`: nothing happens when there is no player at `idx`. */
    method SetVolume(idx: nat, v: int)
      requires Valid()
      modifies this
      ensures Valid()
      ensures channelData == old(channelData) && gridSlots == old(gridSlots) && nextHandle == old(nextHandle)
      ensures players == if idx in old(players)
        then old(players)[idx := Players.SetVolume(old(players)[idx], v)] else old(players)
    {
      if idx in players {
        players := players[idx := Players.SetVolume(players[idx], v)];
      }
    }
  }

  /**
   * A session that starts with one saved channel: entering its id again is
   * rejected with no change, the channel is dropped onto the grid, and
   * removing the channel takes its slot with it.
   */
  method DuplicateThenCascade(id: string)
    requires YouTubeId.IsId(id)
  {
    var saved := NewChannel(id, id);
    var app := new AppState([saved]);
    YouTubeId.BareIdShape(id);
    assert HasChannel(app.channelData, id) by { assert app.channelData[0].id == id; }
    var again := app.AddChannel(Some(id));
    assert again == AlreadyAdded && app.channelData == [saved];
    var dropped := app.Drop(0);
    assert SlotTitle([saved], id) == "Live " + id;
    assert dropped == Offered(SlotAdded) && app.gridSlots == [Slot(id, "Live " + id)];
    app.RemoveChannel(0, saved, true);
    assert app.channelData == [] && app.gridSlots == [] && app.players == map[];
  }
}
