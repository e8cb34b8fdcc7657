/**
 * Which sound cues a client plays when a new game-state snapshot replaces the
 * previous one. Only the snapshot fields the decision reads are modelled.
 */
module SoundEffects {
  import opened Wrappers

  /** A player entry of a snapshot: its id, whether it is dashing, its lives. */
  datatype SnapshotPlayer = SnapshotPlayer(id: int, isDashing: bool, lives: int)

  /** A game-state snapshot as far as the cue decision reads it. */
  datatype Snapshot = Snapshot(players: seq<SnapshotPlayer>, pelletsRemaining: int)

  /** The named sounds: "dash", "eat_pellet", and one "death" per player that lost a life. */
  datatype Cue = DashCue | PelletCue | DeathCue(playerId: int)

  /** Entry k of ps is the first one with the given id. */
  predicate FirstWithId(ps: seq<SnapshotPlayer>, id: int, k: int) {
    0 <= k < |ps| && ps[k].id == id && forall j :: 0 <= j < k ==> ps[j].id != id
  }

  /** The first entry of ps with the given id (Array.prototype.find), or None. */
  function Find(ps: seq<SnapshotPlayer>, id: int): (r: Option<SnapshotPlayer>)
    ensures r.Some? ==> exists k :: FirstWithId(ps, id, k) && ps[k] == r.value
    ensures r.None? <==> forall k :: 0 <= k < |ps| ==> ps[k].id != id
  {
    if ps == [] then None
    else if ps[0].id == id then
      assert FirstWithId(ps, id, 0);
      Some(ps[0])
    else
      var r := Find(ps[1..], id);
      if r.Some? then
        var k :| FirstWithId(ps[1..], id, k) && ps[1..][k] == r.value;
        assert FirstWithId(ps, id, k + 1) && ps[k + 1] == r.value by {
          forall j | 0 < j < k + 1 ensures ps[j] == ps[1..][j - 1] { }
        }
        r
      else r
  }

  /** Whichever entry is the first with an id, find returns exactly that entry. */
  lemma FindIsFirst(ps: seq<SnapshotPlayer>, id: int)
    ensures forall k :: FirstWithId(ps, id, k) ==> Find(ps, id) == Some(ps[k])
  {
    forall k | FirstWithId(ps, id, k) ensures Find(ps, id) == Some(ps[k]) {
      assert ps[k].id == id;
      var r := Find(ps, id);
      var k0 :| FirstWithId(ps, id, k0) && ps[k0] == r.value;
      assert k0 == k;
    }
  }

  /** With distinct ids, looking up an entry's id finds that entry. */
  lemma {:induction false} FindDistinct(ps: seq<SnapshotPlayer>, k: nat)
    requires k < |ps|
    requires forall a, b :: 0 <= a < b < |ps| ==> ps[a].id != ps[b].id
    ensures Find(ps, ps[k].id) == Some(ps[k])
  {
    if k > 0 {
      FindDistinct(ps[1..], k - 1);
    }
  }

  /**
   * p is dashing now, and its previous entry is absent or was not dashing:
   * no first previous entry with p's id was dashing.
   */
  predicate StartsDashing(p: SnapshotPlayer, previous: seq<SnapshotPlayer>)
    ensures StartsDashing(p, previous) <==>
              p.isDashing && forall k :: FirstWithId(previous, p.id, k) ==> !previous[k].isDashing
  {
    FindIsFirst(previous, p.id);
    p.isDashing && (Find(previous, p.id).None? || !Find(previous, p.id).value.isDashing)
  }

  /** The flag the dash check raises over all current players. */
  function AnyStartsDashing(current: seq<SnapshotPlayer>, previous: seq<SnapshotPlayer>): (r: bool)
    ensures r <==> exists i :: 0 <= i < |current| && StartsDashing(current[i], previous)
  {
    if current == [] then false
    else
      var rest := AnyStartsDashing(current[1..], previous);
      assert rest <==> exists i :: 1 <= i < |current| && StartsDashing(current[i], previous) by {
        forall i | 1 <= i < |current| ensures current[i] == current[1..][i - 1] { }
        if rest {
          var j :| 0 <= j < |current[1..]| && StartsDashing(current[1..][j], previous);
          assert current[j + 1] == current[1..][j];
        }
      }
      StartsDashing(current[0], previous) || rest
  }

  /** p has an entry in the previous snapshot, and fewer lives than the first such entry had. */
  predicate LostLife(p: SnapshotPlayer, previous: seq<SnapshotPlayer>)
    ensures LostLife(p, previous) <==>
              exists k :: FirstWithId(previous, p.id, k) && p.lives < previous[k].lives
  {
    FindIsFirst(previous, p.id);
    Find(previous, p.id).Some? && p.lives < Find(previous, p.id).value.lives
  }

  /** One death cue per current player that lost a life, in current-snapshot order. */
  function Deaths(current: seq<SnapshotPlayer>, previous: seq<SnapshotPlayer>): (r: seq<Cue>)
    ensures |r| <= |current|
    ensures forall c :: c in r ==> c.DeathCue?
  {
    if current == [] then []
    else (if LostLife(current[0], previous) then [DeathCue(current[0].id)] else []) + Deaths(current[1..], previous)
  }

  /** Death cues are assigned player by player: the cues for a concatenation are the concatenated cues. */
  lemma {:induction false} DeathsAppend(a: seq<SnapshotPlayer>, b: seq<SnapshotPlayer>, previous: seq<SnapshotPlayer>)
    ensures Deaths(a + b, previous) == Deaths(a, previous) + Deaths(b, previous)
  {
    if a != [] {
      DeathsAppend(a[1..], b, previous);
      assert (a + b)[0] == a[0] && (a + b)[1..] == a[1..] + b;
    } else {
      assert a + b == b;
    }
  }

  /** A single player yields one death cue exactly when it lost a life. */
  lemma DeathsSingle(p: SnapshotPlayer, previous: seq<SnapshotPlayer>)
    ensures Deaths([p], previous) == if LostLife(p, previous) then [DeathCue(p.id)] else []
  {
    assert [p][1..] == [];
  }

  /** A death cue names a current player that lost a life, and every such player has one. */
  lemma {:induction false} DeathsMembers(current: seq<SnapshotPlayer>, previous: seq<SnapshotPlayer>, id: int)
    ensures DeathCue(id) in Deaths(current, previous) <==>
              exists i :: 0 <= i < |current| && current[i].id == id && LostLife(current[i], previous)
  {
    if current != [] {
      DeathsMembers(current[1..], previous, id);
      if exists i :: 1 <= i < |current| && current[i].id == id && LostLife(current[i], previous) {
        var i :| 1 <= i < |current| && current[i].id == id && LostLife(current[i], previous);
        assert current[1..][i - 1] == current[i];
      }
      if exists j :: 0 <= j < |current[1..]| && current[1..][j].id == id && LostLife(current[1..][j], previous) {
        var j :| 0 <= j < |current[1..]| && current[1..][j].id == id && LostLife(current[1..][j], previous);
        assert current[j + 1] == current[1..][j];
      }
    }
  }

  /** DeathsMembers for every id at once. */
  lemma DeathsMembersAll(current: seq<SnapshotPlayer>, previous: seq<SnapshotPlayer>)
    ensures forall id :: DeathCue(id) in Deaths(current, previous) <==>
              exists i :: 0 <= i < |current| && current[i].id == id && LostLife(current[i], previous)
  {
    forall id
      ensures DeathCue(id) in Deaths(current, previous) <==>
                exists i :: 0 <= i < |current| && current[i].id == id && LostLife(current[i], previous)
    {
      DeathsMembers(current, previous, id);
    }
  }

  /** The named cues that precede the death cues: each occurs at most once, exactly when its flag is set. */
  lemma NamedCues(dash: bool, pellet: bool, d: seq<Cue>)
    requires forall c :: c in d ==> c.DeathCue?
    ensures var r := (if dash then [DashCue] else []) + (if pellet then [PelletCue] else []) + d;
            && multiset(r)[DashCue] <= 1 && multiset(r)[PelletCue] <= 1
            && (DashCue in r <==> dash) && (PelletCue in r <==> pellet)
  {
    assert DashCue !in d && PelletCue !in d;
    assert DashCue !in multiset(d) && PelletCue !in multiset(d);
  }

  /** Placing the named cues before the death cues keeps the death cues exactly those of Deaths, at the end. */
  lemma DeathsAfterNamedCues(dash: bool, pellet: bool, current: seq<SnapshotPlayer>, previous: seq<SnapshotPlayer>)
    ensures var named := (if dash then [DashCue] else []) + (if pellet then [PelletCue] else []);
            var r, d := named + Deaths(current, previous), Deaths(current, previous);
            (forall id :: DeathCue(id) in r <==>
               exists i :: 0 <= i < |current| && current[i].id == id && LostLife(current[i], previous)) &&
            |d| <= |r| && r[|r| - |d|..] == d && forall k :: 0 <= k < |r| - |d| ==> !r[k].DeathCue?
  {
    var named := (if dash then [DashCue] else []) + (if pellet then [PelletCue] else []);
    var d := Deaths(current, previous);
    DeathsMembersAll(current, previous);
    assert (named + d)[|named|..] == d;
  }

  /** A player that was not in the previous snapshot never triggers a death cue. */
  lemma NewcomersNeverDie(current: seq<SnapshotPlayer>, previous: seq<SnapshotPlayer>, id: int)
    requires Find(previous, id).None?
    ensures DeathCue(id) !in Deaths(current, previous)
  {
    DeathsMembers(current, previous, id);
  }

  /**
   * The cues for two snapshots that both exist, with audio ready: a dash cue
   * when some player started dashing, a pellet cue when pelletsRemaining
   * strictly fell, then the death cues of Deaths.
   */
  function CuesBetween(prev: Snapshot, cur: Snapshot): (r: seq<Cue>)
    ensures multiset(r)[DashCue] <= 1 && multiset(r)[PelletCue] <= 1
    ensures DashCue in r <==> exists i :: 0 <= i < |cur.players| && StartsDashing(cur.players[i], prev.players)
    ensures PelletCue in r <==> cur.pelletsRemaining < prev.pelletsRemaining
    ensures forall id :: DeathCue(id) in r <==>
              exists i :: 0 <= i < |cur.players| && cur.players[i].id == id && LostLife(cur.players[i], prev.players)
    ensures var d := Deaths(cur.players, prev.players);
            |d| <= |r| && r[|r| - |d|..] == d && forall k :: 0 <= k < |r| - |d| ==> !r[k].DeathCue?
  {
    var dash := AnyStartsDashing(cur.players, prev.players);
    var pellet := cur.pelletsRemaining < prev.pelletsRemaining;
    var named := (if dash then [DashCue] else []) + (if pellet then [PelletCue] else []);
    NamedCues(dash, pellet, Deaths(cur.players, prev.players));
    DeathsAfterNamedCues(dash, pellet, cur.players, prev.players);
    named + Deaths(cur.players, prev.players)
  }

  /**
   * The cues played for a (previous, current) snapshot pair: none unless both
   * snapshots exist and audio is ready; otherwise at most one dash cue, a
   * pellet cue when pelletsRemaining strictly fell, then the death cues.
   */
  function SoundCues(previous: Option<Snapshot>, current: Option<Snapshot>, audioReady: bool): (r: seq<Cue>)
    ensures previous.None? || current.None? || !audioReady ==> r == []
    ensures multiset(r)[DashCue] <= 1 && multiset(r)[PelletCue] <= 1
    ensures DashCue in r <==>
              (previous.Some? && current.Some? && audioReady &&
               exists i :: 0 <= i < |current.value.players| &&
                 StartsDashing(current.value.players[i], previous.value.players))
    ensures PelletCue in r <==>
              (previous.Some? && current.Some? && audioReady &&
               current.value.pelletsRemaining < previous.value.pelletsRemaining)
    ensures forall id :: DeathCue(id) in r <==>
              (previous.Some? && current.Some? && audioReady &&
               exists i :: 0 <= i < |current.value.players| && current.value.players[i].id == id &&
                 LostLife(current.value.players[i], previous.value.players))
    ensures previous.Some? && current.Some? && audioReady ==>
              var d := Deaths(current.value.players, previous.value.players);
              |d| <= |r| && r[|r| - |d|..] == d && forall k :: 0 <= k < |r| - |d| ==> !r[k].DeathCue?
  {
    if previous.None? || current.None? || !audioReady then []
    else CuesBetween(previous.value, current.value)
  }

  /** Receiving the same snapshot twice (with distinct player ids) plays nothing. */
  lemma SameSnapshotIsSilent(s: Snapshot, audioReady: bool)
    requires forall a, b :: 0 <= a < b < |s.players| ==> s.players[a].id != s.players[b].id
    ensures SoundCues(Some(s), Some(s), audioReady) == []
  {
    forall k | 0 <= k < |s.players|
      ensures !StartsDashing(s.players[k], s.players) && !LostLife(s.players[k], s.players)
    {
      FindDistinct(s.players, k);
    }
    NoLostLivesNoDeaths(s.players, s.players);
  }

  /** When no current player lost a life, there are no death cues. */
  lemma {:induction false} NoLostLivesNoDeaths(current: seq<SnapshotPlayer>, previous: seq<SnapshotPlayer>)
    requires forall k :: 0 <= k < |current| ==> !LostLife(current[k], previous)
    ensures Deaths(current, previous) == []
  {
    if current != [] {
      NoLostLivesNoDeaths(current[1..], previous);
    }
  }
}
