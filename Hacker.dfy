/**
  Hacker mode with rendering stripped out: per-player scores and power-ups,
  the `playerScores` leaderboard (a JavaScript Map, so an entry table plus
  its insertion order), hack-target selection, the 30-second password
  countdown, the game timer and the integer branches of `formatScore`.
  Clock readings (`Date.now()`) and `Math.random() * 100` rolls are
  parameters.
 */
module Hacker {
  import opened Text

  // ---------------------------------------------------------------------
  // Score display

  /**
    `formatScore` on an integer score; None stands for the two branches
    that go through floating-point `toFixed(1)`.
   */
  function FormatScore(score: int): (r: Option<string>)
    ensures r.None? <==> 10000 <= score < 100000 || (score >= 1000000 && score % 1000000 != 0)
    ensures 0 <= score < 10000 ==> r.Some? && AllDigits(r.value) && DigitsValue(r.value) == score && |r.value| <= 4
    ensures score < 0 ==> r.Some? && |r.value| >= 1 && r.value[0] == '-'
    ensures 100000 <= score < 1000000 ==>
      r.Some? && |r.value| == 4 && r.value[3] == 'k' && AllDigits(r.value[..3]) && DigitsValue(r.value[..3]) == score / 1000
    ensures score >= 1000000 && score % 1000000 == 0 ==>
      r.Some? && |r.value| >= 2 && r.value[|r.value| - 1] == 'M' && AllDigits(r.value[..|r.value| - 1])
      && DigitsValue(r.value[..|r.value| - 1]) == score / 1000000
  {
    if score >= 1000000 then
      if score % 1000000 == 0 then
        var digits := NatToString(score / 1000000);
        NatToStringSpec(score / 1000000);
        assert (digits + "M")[..|digits|] == digits;
        Some(digits + "M")
      else None
    else if score >= 100000 then
      var digits := NatToString(score / 1000);
      NatToStringSpec(score / 1000);
      assert Pow10(2) == 100 && Pow10(3) == 1000;
      NatToStringLength(score / 1000, 3);
      assert (digits + "k")[..3] == digits;
      Some(digits + "k")
    else if score >= 10000 then None
    else
      if score >= 0 then
        NatToStringSpec(score);
        assert Pow10(4) == 10000;
        NatToStringLengthBound(score, 4);
        Some(IntToString(score))
      else Some(IntToString(score))
  }

  /** A number below 10^k renders to at most k characters. */
  lemma {:induction false} NatToStringLengthBound(n: nat, k: nat)
    requires k >= 1 && n < Pow10(k)
    ensures |NatToString(n)| <= k
  {
    if n >= 10 {
      NatToStringLengthBound(n / 10, k - 1);
    }
  }

  // ---------------------------------------------------------------------
  // Countdown and timer

  const PASSWORD_SECONDS := 30

  /** Seconds left of the password countdown, `elapsedMs` after it started. */
  function CountdownRemaining(elapsedMs: int): (r: int)
    ensures 0 <= r <= PASSWORD_SECONDS || (elapsedMs < 0 && r > PASSWORD_SECONDS)
    ensures elapsedMs >= 0 ==> (r == 0 <==> elapsedMs >= 30000)
  {
    var elapsed := elapsedMs / 1000;
    if PASSWORD_SECONDS - elapsed > 0 then PASSWORD_SECONDS - elapsed else 0
  }

  /** The countdown never goes up as time passes. */
  lemma CountdownNonIncreasing(e1: int, e2: int)
    requires e1 <= e2
    ensures CountdownRemaining(e2) <= CountdownRemaining(e1)
  {
    assert e1 / 1000 <= e2 / 1000;
  }

  /** The countdown shows each whole second: it is 30 - s during the s-th second. */
  lemma CountdownDuringSecond(s: nat, elapsedMs: int)
    requires s < 30 && 1000 * s <= elapsedMs < 1000 * (s + 1)
    ensures CountdownRemaining(elapsedMs) == 30 - s
  {
    assert elapsedMs / 1000 == s;
  }

  /** Milliseconds of game time left, `elapsedMs` after the timer started. */
  function TimerRemaining(durationMs: int, elapsedMs: int): (r: int)
    ensures r >= 0
    ensures r == 0 <==> elapsedMs >= durationMs
    ensures r > 0 ==> r == durationMs - elapsedMs
  {
    if durationMs - elapsedMs > 0 then durationMs - elapsedMs else 0
  }

  /** The `m:ss` text the timer shows for `remaining` milliseconds. */
  function TimerText(remaining: nat): string {
    NatToString(remaining / 60000) + ":" + PadStart(NatToString((remaining % 60000) / 1000), 2, '0')
  }

  /** Whole minutes and the seconds left over make up the whole seconds remaining. */
  lemma MinutesAndSeconds(remaining: nat)
    ensures (remaining % 60000) / 1000 < 60
    ensures (remaining / 60000) * 60 + (remaining % 60000) / 1000 == remaining / 1000
  {
    var q, r := remaining / 60000, remaining % 60000;
    var sec, u := r / 1000, r % 1000;
    assert r == 1000 * sec + u;
    assert remaining == 1000 * (60 * q + sec) + u;
  }

  /**
    The timer text is minutes, a colon and exactly two digits of seconds
    in 0..59, and together they give the whole seconds left.
   */
  lemma TimerTextSpec(remaining: nat)
    ensures var minutes, seconds := remaining / 60000, (remaining % 60000) / 1000;
      var m := NatToString(minutes);
      var t := TimerText(remaining);
      && seconds < 60
      && minutes * 60 + seconds == remaining / 1000
      && |t| == |m| + 3 && t[..|m|] == m && t[|m|] == ':'
      && AllDigits(t[|m| + 1..]) && DigitsValue(t[|m| + 1..]) == seconds
  {
    var minutes, seconds := remaining / 60000, (remaining % 60000) / 1000;
    MinutesAndSeconds(remaining);
    TwoDigits(seconds);
    var m := NatToString(minutes);
    var p := PadStart(NatToString(seconds), 2, '0');
    assert TimerText(remaining) == m + ":" + p;
    ColonJoin(m, p);
  }

  /** The pieces of `m + ":" + p` are where they were put. */
  lemma ColonJoin(m: string, p: string)
    ensures var t := m + ":" + p;
      |t| == |m| + 1 + |p| && t[..|m|] == m && t[|m|] == ':' && t[|m| + 1..] == p
  {
    var t := m + ":" + p;
    assert t[|m| + 1..] == p;
    assert t[..|m|] == m;
  }

  // ---------------------------------------------------------------------
  // Rewards

  datatype Reward = NextQuestion | Hack | Multiplier | CryptoMiner | Shield

  /** `rollReward`'s two tables, for a roll in [0, 100). */
  function RewardFor(afterOneMinute: bool, roll: real): Reward {
    if afterOneMinute then
      if roll < 70.0 then Hack else if roll < 85.0 then Multiplier else if roll < 95.0 then CryptoMiner else Shield
    else
      if roll < 60.0 then NextQuestion else if roll < 80.0 then Multiplier else if roll < 90.0 then CryptoMiner else Shield
  }

  /**
    `Date.now() - this.gameStartTime >= 60000`, where a start time that was
    never set (null) counts as zero.
   */
  function AfterOneMinute(now: int, gameStartTime: Option<int>): bool {
    now - (if gameStartTime.Some? then gameStartTime.value else 0) >= 60000
  }

  /**
    Hacking is only on offer after the first minute and a plain next
    question only during it. A client whose start time is unset is always past the first minute.
   */
  lemma RewardTables(now: int, start: Option<int>, roll: real)
    requires 0.0 <= roll < 100.0
    ensures RewardFor(AfterOneMinute(now, start), roll) == Hack ==> AfterOneMinute(now, start)
    ensures RewardFor(AfterOneMinute(now, start), roll) == NextQuestion ==> !AfterOneMinute(now, start)
    ensures start.None? && now >= 60000 ==> RewardFor(AfterOneMinute(now, start), roll) != NextQuestion
  {
  }

  /** The multiplier rolled by `triggerMultiplier`. */
  function MultiplierFor(roll: real): (m: int)
    ensures 2 <= m <= 4
    ensures m == 2 <==> roll < 60.0
    ensures m == 4 <==> roll >= 90.0
  {
    if roll < 60.0 then 2 else if roll < 90.0 then 3 else 4
  }

  /** `Math.floor(score * 0.3)`, taken as the exact ⌊3·score/10⌋. */
  function Steal(score: int): (stolen: int)
    ensures score >= 0 ==> 0 <= stolen <= score
    ensures 10 * stolen <= 3 * score < 10 * stolen + 10
  {
    (3 * score) / 10
  }

  /** A successful hack moves points from victim to hacker without creating or losing any. */
  lemma StealConserves(victim: int, hacker: int)
    requires victim >= 0
    ensures var s := Steal(victim);
      && (victim - s) + (hacker + s) == victim + hacker
      && 0 <= victim - s <= victim && hacker + s >= hacker
  {
  }

  // ---------------------------------------------------------------------
  // Leaderboard

  /** An entry of `playerScores`. */
  datatype Entry = Entry(name: string, score: int, password: Option<string>, hasShield: bool, isHost: bool)

  /** An entry of `room.players` as the scene reads it. */
  datatype Member = Member(id: string, name: string, isHost: bool)

  /** The entry a player who is new to the leaderboard gets. */
  function FreshEntry(p: Member): Entry {
    Entry(p.name, 0, None, false, p.isHost)
  }

  /** `playerScores` as a JavaScript Map: the entries and the order their keys were first set. */
  datatype Board = Board(entries: map<string, Entry>, order: seq<string>)

  /** `Map.has`-guarded insertion: a present key keeps its entry and its place. */
  function InsertMissing(b: Board, id: string, e: Entry): (r: Board) {
    if id in b.entries then b else Board(b.entries[id := e], b.order + [id])
  }

  /** The room-updated listener's loop over `room.players`. */
  function AddMembers(b: Board, players: seq<Member>): (r: Board) {
    if players == [] then b
    else
      var p := players[|players| - 1];
      InsertMissing(AddMembers(b, players[..|players| - 1]), p.id, FreshEntry(p))
  }

  /** The first member listed with `id`, if any. */
  function FirstMember(players: seq<Member>, id: string): (r: Option<Member>)
    ensures r.Some? ==> r.value in players && r.value.id == id
    ensures r.None? <==> forall k | 0 <= k < |players| :: players[k].id != id
  {
    if players == [] then None
    else if players[0].id == id then Some(players[0])
    else FirstMember(players[1..], id)
  }

  /** The insertion order lists every key exactly once. */
  ghost predicate OrderMatches(b: Board) {
    && (forall id :: id in b.entries <==> id in b.order)
    && (forall i, j | 0 <= i < j < |b.order| :: b.order[i] != b.order[j])
  }

  /** Replacing entries without adding or removing keys keeps the order matching. */
  lemma SameKeysOrderMatches(before: map<string, Entry>, after: map<string, Entry>, order: seq<string>)
    requires OrderMatches(Board(before, order))
    requires after.Keys == before.Keys
    ensures OrderMatches(Board(after, order))
  {
    forall id
      ensures id in after <==> id in order
    {
      assert id in after <==> id in before;
    }
  }

  /** A snoc step of `FirstMember`: a later duplicate does not displace the first. */
  lemma {:induction false} FirstMemberSnoc(players: seq<Member>, id: string)
    requires players != []
    ensures var init := players[..|players| - 1];
      FirstMember(players, id) ==
        if FirstMember(init, id).Some? then FirstMember(init, id)
        else if players[|players| - 1].id == id then Some(players[|players| - 1]) else None
  {
    if |players| > 1 && players[0].id != id {
      FirstMemberSnoc(players[1..], id);
      assert players[1..][..|players| - 2] == players[..|players| - 1][1..];
    }
  }

  /**
    room-updated only inserts: the keys grow by exactly the listed ids,
    the order stays a duplicate-free list of the keys with the old order
    as its prefix, and an existing entry is never reset.
   */
  lemma {:induction false} AddMembersKeys(b: Board, players: seq<Member>)
    requires OrderMatches(b)
    ensures var r := AddMembers(b, players);
      && OrderMatches(r)
      && |r.order| >= |b.order| && r.order[..|b.order|] == b.order
      && (forall id :: id in r.entries <==> id in b.entries || FirstMember(players, id).Some?)
      && (forall id | id in b.entries :: r.entries[id] == b.entries[id])
  {
    if players != [] {
      var init := players[..|players| - 1];
      AddMembersKeys(b, init);
      var r0 := AddMembers(b, init);
      var p := players[|players| - 1];
      forall id ensures FirstMember(players, id).Some? <==> FirstMember(init, id).Some? || p.id == id {
        FirstMemberSnoc(players, id);
      }
      if p.id !in r0.entries {
        assert AddMembers(b, players).order[..|b.order|] == r0.order[..|b.order|];
      }
    }
  }

  /** `x` is listed in `players` before `y` is first listed. */
  ghost predicate ListedBefore(players: seq<Member>, x: string, y: string) {
    exists k | 0 <= k < |players| :: players[k].id == x && forall m | 0 <= m <= k :: players[m].id != y
  }

  /**
    room-updated appends the new ids in the order of their first listing:
    of two ids it added, the earlier one was listed before the later one
    was first listed.
   */
  lemma {:induction false} AddMembersOrder(b: Board, players: seq<Member>)
    requires OrderMatches(b)
    ensures var r := AddMembers(b, players);
      forall i, j | |b.order| <= i < j < |r.order| :: ListedBefore(players, r.order[i], r.order[j])
  {
    if players != [] {
      var init := players[..|players| - 1];
      var p := players[|players| - 1];
      AddMembersOrder(b, init);
      AddMembersKeys(b, init);
      var r0 := AddMembers(b, init);
      assert players == init + [p];
      forall i, j | |b.order| <= i < j < |r0.order|
        ensures ListedBefore(players, r0.order[i], r0.order[j])
      {
        ListedBeforeSnoc(init, p, r0.order[i], r0.order[j]);
      }
      if p.id !in r0.entries {
        forall i | |b.order| <= i < |r0.order|
          ensures ListedBefore(players, r0.order[i], p.id)
        {
          NewIdListed(b, init, r0, i);
          ListedBeforeSnoc(init, p, r0.order[i], p.id);
        }
      }
    }
  }

  /** Listing one more player keeps every earlier "listed before" fact. */
  lemma ListedBeforeSnoc(init: seq<Member>, p: Member, x: string, y: string)
    ensures ListedBefore(init, x, y) ==> ListedBefore(init + [p], x, y)
    ensures (exists k | 0 <= k < |init| :: init[k].id == x) && (forall k | 0 <= k < |init| :: init[k].id != y) ==>
      ListedBefore(init + [p], x, y)
  {
    var players := init + [p];
    if ListedBefore(init, x, y) {
      var k :| 0 <= k < |init| && init[k].id == x && forall m | 0 <= m <= k :: init[m].id != y;
      assert players[k].id == x && forall m | 0 <= m <= k :: players[m].id != y;
    }
    if (exists k | 0 <= k < |init| :: init[k].id == x) && (forall k | 0 <= k < |init| :: init[k].id != y) {
      var k :| 0 <= k < |init| && init[k].id == x;
      assert players[k].id == x && forall m | 0 <= m <= k :: players[m].id != y;
    }
  }

  /** An id the board gained from `players` is listed there. */
  lemma NewIdListed(b: Board, players: seq<Member>, r: Board, i: nat)
    requires OrderMatches(b) && OrderMatches(r) && |r.order| >= |b.order| && r.order[..|b.order|] == b.order
    requires forall id :: id in r.entries <==> id in b.entries || FirstMember(players, id).Some?
    requires |b.order| <= i < |r.order|
    ensures exists k | 0 <= k < |players| :: players[k].id == r.order[i]
  {
    var id := r.order[i];
    assert id in r.entries;
    if id in b.entries {
      assert false;
    }
  }

  /** `create`'s loop: `Map.set` for every listed player, so a repeated id keeps its place and takes the later entry. */
  function Load(players: seq<Member>): Board {
    if players == [] then Board(map[], [])
    else
      var b := Load(players[..|players| - 1]);
      var p := players[|players| - 1];
      Board(b.entries[p.id := FreshEntry(p)], if p.id in b.entries then b.order else b.order + [p.id])
  }

  /** Loading lists the same ids in the same order as inserting into an empty board. */
  lemma {:induction false} LoadLikeAddMembers(players: seq<Member>)
    ensures var l, a := Load(players), AddMembers(Board(map[], []), players);
      l.order == a.order && l.entries.Keys == a.entries.Keys
  {
    if players != [] {
      LoadLikeAddMembers(players[..|players| - 1]);
    }
  }

  /** `e` is the fresh entry of the last player listed with `id`. */
  ghost predicate LastListing(players: seq<Member>, id: string, e: Entry) {
    exists k | 0 <= k < |players| ::
      && players[k].id == id && e == FreshEntry(players[k])
      && forall m | k < m < |players| :: players[m].id != id
  }

  /** A later listing of another id leaves an id's last listing where it was. */
  lemma LastListingSnoc(init: seq<Member>, p: Member, id: string, e: Entry)
    requires LastListing(init, id, e) && p.id != id
    ensures LastListing(init + [p], id, e)
  {
    var players := init + [p];
    var k :| 0 <= k < |init| && init[k].id == id && e == FreshEntry(init[k])
      && forall m | k < m < |init| :: init[m].id != id;
    assert players[k] == init[k];
    assert forall m | k < m < |players| :: players[m].id != id by {
      assert forall m | k < m < |init| :: players[m] == init[m];
    }
  }

  /** Each loaded entry is the fresh entry of the id's last listing. */
  lemma {:induction false} LoadValues(players: seq<Member>)
    ensures var l := Load(players);
      forall id | id in l.entries :: LastListing(players, id, l.entries[id])
  {
    if players != [] {
      var init := players[..|players| - 1];
      var p := players[|players| - 1];
      LoadValues(init);
      var l := Load(players);
      assert players == init + [p];
      assert l.entries == Load(init).entries[p.id := FreshEntry(p)];
      forall id | id in l.entries
        ensures LastListing(players, id, l.entries[id])
      {
        if id != p.id {
          LastListingSnoc(init, p, id, l.entries[id]);
        } else {
          assert players[|players| - 1].id == id;
        }
      }
    }
  }

  /**
    `create` gives one entry per listed id, in the order ids are first
    listed, each the fresh entry of that id's last listing.
   */
  lemma LoadSpec(players: seq<Member>)
    ensures var l := Load(players);
      && OrderMatches(l)
      && (forall id :: id in l.entries <==> exists k | 0 <= k < |players| :: players[k].id == id)
      && (forall id | id in l.entries :: exists k | 0 <= k < |players| ::
          && players[k].id == id && l.entries[id] == FreshEntry(players[k])
          && forall m | k < m < |players| :: players[m].id != id)
      && l.order == AddMembers(Board(map[], []), players).order
      && forall i, j | 0 <= i < j < |l.order| :: ListedBefore(players, l.order[i], l.order[j])
  {
    var b0 := Board(map[], []);
    LoadLikeAddMembers(players);
    LoadValues(players);
    AddMembersKeys(b0, players);
    AddMembersOrder(b0, players);
    var l, a := Load(players), AddMembers(b0, players);
    forall id ensures id in l.entries <==> exists k | 0 <= k < |players| :: players[k].id == id {
      assert id in l.entries <==> id in a.entries;
    }
    forall id ensures id in l.entries <==> id in l.order {
      assert id in l.entries <==> id in a.entries;
    }
  }

  /** A player new to the board gets a fresh entry (score 0, no password, no shield) from its first listing. */
  lemma {:induction false} AddMembersValues(b: Board, players: seq<Member>)
    requires OrderMatches(b)
    ensures var r := AddMembers(b, players);
      forall id | id in r.entries && id !in b.entries ::
        FirstMember(players, id).Some? && r.entries[id] == FreshEntry(FirstMember(players, id).value)
  {
    if players != [] {
      var init := players[..|players| - 1];
      AddMembersValues(b, init);
      AddMembersKeys(b, init);
      var r0 := AddMembers(b, init);
      var r := AddMembers(b, players);
      forall id | id in r.entries && id !in b.entries
        ensures FirstMember(players, id).Some? && r.entries[id] == FreshEntry(FirstMember(players, id).value)
      {
        FirstMemberSnoc(players, id);
      }
    }
  }

  // ---------------------------------------------------------------------
  // Hack targets

  /** A hack candidate: a player id and its score when the list was built. */
  datatype Candidate = Candidate(id: string, score: int)

  /** The entries other than `me` and the host, in insertion order. */
  function Eligible(entries: map<string, Entry>, order: seq<string>, me: string): (c: seq<Candidate>)
    requires forall k | 0 <= k < |order| :: order[k] in entries
    ensures forall x | x in c :: x.id in order && x.id != me && !entries[x.id].isHost && x.score == entries[x.id].score
    ensures forall k | 0 <= k < |order| && order[k] != me && !entries[order[k]].isHost ::
      Candidate(order[k], entries[order[k]].score) in c
  {
    if order == [] then []
    else
      var rest := Eligible(entries, order[..|order| - 1], me);
      var id := order[|order| - 1];
      assert forall k | 0 <= k < |order| - 1 :: order[..|order| - 1][k] == order[k];
      if id != me && !entries[id].isHost then rest + [Candidate(id, entries[id].score)] else rest
  }

  predicate SortedDesc(s: seq<Candidate>) {
    forall i, j | 0 <= i < j < |s| :: s[i].score >= s[j].score
  }

  /** Places `x` after every element scoring at least as much, so equal scores keep their order. */
  function InsertDesc(x: Candidate, s: seq<Candidate>): (r: seq<Candidate>)
    ensures |r| == |s| + 1
  {
    if s == [] then [x]
    else if s[0].score < x.score then [x] + s
    else [s[0]] + InsertDesc(x, s[1..])
  }

  /** Insertion adds exactly `x`. */
  lemma {:induction false} InsertDescPerm(x: Candidate, s: seq<Candidate>)
    ensures multiset(InsertDesc(x, s)) == multiset(s) + multiset{x}
  {
    if s != [] && s[0].score >= x.score {
      InsertDescPerm(x, s[1..]);
      assert s == [s[0]] + s[1..];
    }
  }

  /** Every element of an inserted-into list comes from the list or is `x`. */
  lemma InsertDescFrom(x: Candidate, s: seq<Candidate>, y: Candidate)
    requires y in InsertDesc(x, s)
    ensures y == x || y in s
  {
    InsertDescPerm(x, s);
    assert y in multiset(InsertDesc(x, s));
  }

  /** Insertion keeps a descending list descending. */
  lemma {:induction false} InsertDescSorted(x: Candidate, s: seq<Candidate>)
    requires SortedDesc(s)
    ensures SortedDesc(InsertDesc(x, s))
  {
    if s != [] && s[0].score >= x.score {
      var rest := InsertDesc(x, s[1..]);
      InsertDescSorted(x, s[1..]);
      var r := [s[0]] + rest;
      forall j | 0 <= j < |rest|
        ensures rest[j].score <= s[0].score
      {
        InsertDescFrom(x, s[1..], rest[j]);
      }
      forall i, j | 0 <= i < j < |r|
        ensures r[i].score >= r[j].score
      {
        assert r[j] == rest[j - 1];
        if i > 0 {
          assert r[i] == rest[i - 1];
        }
      }
    }
  }

  /** `sort((a, b) => b.score - a.score)`, a stable sort by descending score. */
  function SortDesc(s: seq<Candidate>): (r: seq<Candidate>)
    ensures |r| == |s|
  {
    if s == [] then [] else InsertDesc(s[|s| - 1], SortDesc(s[..|s| - 1]))
  }

  /**
    The sort yields a descending permutation of its input, and it is
    stable: the candidates of any one score keep their input order.
   */
  lemma SortDescSpec(s: seq<Candidate>)
    ensures SortedDesc(SortDesc(s))
    ensures multiset(SortDesc(s)) == multiset(s)
    ensures forall v :: WithScore(SortDesc(s), v) == WithScore(s, v)
  {
    SortDescSorted(s);
    SortDescPerm(s);
    forall v ensures WithScore(SortDesc(s), v) == WithScore(s, v) {
      SortDescStable(s, v);
    }
  }

  /** The candidates of `s` scoring `v`, in their order in `s`. */
  function WithScore(s: seq<Candidate>, v: int): seq<Candidate> {
    if s == [] then [] else (if s[0].score == v then [s[0]] else []) + WithScore(s[1..], v)
  }

  /** Selecting by score distributes over concatenation. */
  lemma {:induction false} WithScoreAppend(a: seq<Candidate>, b: seq<Candidate>, v: int)
    ensures WithScore(a + b, v) == WithScore(a, v) + WithScore(b, v)
  {
    if a == [] {
      assert a + b == b;
    } else {
      var head := if a[0].score == v then [a[0]] else [];
      WithScoreAppend(a[1..], b, v);
      assert (a + b)[0] == a[0] && (a + b)[1..] == a[1..] + b;
      assert WithScore(a + b, v) == head + (WithScore(a[1..], v) + WithScore(b, v));
      assert WithScore(a, v) == head + WithScore(a[1..], v);
    }
  }

  /** Nothing in a descending list headed by a score below `v` scores `v`. */
  lemma {:induction false} WithScoreBelow(s: seq<Candidate>, v: int)
    requires SortedDesc(s) && s != [] && s[0].score < v
    ensures WithScore(s, v) == []
  {
    if |s| > 1 {
      assert s[1].score <= s[0].score;
      WithScoreBelow(s[1..], v);
    }
  }

  /** Inserting into a descending list places `x` after every other candidate of its score. */
  lemma {:induction false} InsertDescStable(x: Candidate, t: seq<Candidate>, v: int)
    requires SortedDesc(t)
    ensures WithScore(InsertDesc(x, t), v) == WithScore(t, v) + (if x.score == v then [x] else [])
  {
    var tail := if x.score == v then [x] else [];
    if t == [] {
      assert InsertDesc(x, t) == [x] && [x][1..] == [];
    } else if t[0].score < x.score {
      var r := [x] + t;
      assert InsertDesc(x, t) == r && r[0] == x && r[1..] == t;
      if x.score == v {
        WithScoreBelow(t, v);
      }
      assert WithScore(r, v) == tail + WithScore(t, v);
    } else {
      var head := if t[0].score == v then [t[0]] else [];
      InsertDescStable(x, t[1..], v);
      var r := [t[0]] + InsertDesc(x, t[1..]);
      assert InsertDesc(x, t) == r && r[0] == t[0] && r[1..] == InsertDesc(x, t[1..]);
      assert WithScore(r, v) == head + (WithScore(t[1..], v) + tail);
      assert WithScore(t, v) == head + WithScore(t[1..], v);
    }
  }

  /** The sort keeps candidates of equal score in their input order. */
  lemma {:induction false} SortDescStable(s: seq<Candidate>, v: int)
    ensures WithScore(SortDesc(s), v) == WithScore(s, v)
  {
    if s != [] {
      var init, x := s[..|s| - 1], s[|s| - 1];
      SortDescStable(init, v);
      SortDescSorted(init);
      InsertDescStable(x, SortDesc(init), v);
      assert s == init + [x];
      WithScoreAppend(init, [x], v);
      assert [x][1..] == [];
      assert WithScore([x], v) == if x.score == v then [x] else [];
    }
  }

  /** The sort's output is descending. */
  lemma {:induction false} SortDescSorted(s: seq<Candidate>)
    ensures SortedDesc(SortDesc(s))
  {
    if s != [] {
      SortDescSorted(s[..|s| - 1]);
      InsertDescSorted(s[|s| - 1], SortDesc(s[..|s| - 1]));
    }
  }

  /** The sort's output is a permutation of its input. */
  lemma {:induction false} SortDescPerm(s: seq<Candidate>)
    ensures multiset(SortDesc(s)) == multiset(s)
  {
    if s != [] {
      var init, x := s[..|s| - 1], s[|s| - 1];
      SortDescPerm(init);
      SortDescStep(s);
      InsertDescPerm(x, SortDesc(init));
      SnocMultiset(s);
    }
  }

  lemma SortDescStep(s: seq<Candidate>)
    requires s != []
    ensures SortDesc(s) == InsertDesc(s[|s| - 1], SortDesc(s[..|s| - 1]))
  {
  }

  lemma SnocMultiset(s: seq<Candidate>)
    requires s != []
    ensures multiset(s) == multiset(s[..|s| - 1]) + multiset{s[|s| - 1]}
  {
    assert s == s[..|s| - 1] + [s[|s| - 1]];
  }


  /** `showHackModal`'s list: eligible players, highest score first, at most five. */
  function HackCandidates(entries: map<string, Entry>, order: seq<string>, me: string): seq<Candidate>
    requires forall k | 0 <= k < |order| :: order[k] in entries
  {
    var sorted := SortDesc(Eligible(entries, order, me));
    sorted[..if |sorted| < 5 then |sorted| else 5]
  }

  /** The candidate list holds at most five players, highest score first, never `me` or the host. */
  lemma HackCandidatesSpec(entries: map<string, Entry>, order: seq<string>, me: string)
    requires forall k | 0 <= k < |order| :: order[k] in entries
    ensures var c := HackCandidates(entries, order, me);
      && |c| <= 5 && SortedDesc(c)
      && |c| == (if |Eligible(entries, order, me)| < 5 then |Eligible(entries, order, me)| else 5)
      && (c == [] <==> forall k | 0 <= k < |order| :: order[k] == me || entries[order[k]].isHost)
      && (forall x | x in c :: x.id in entries && x.id != me && !entries[x.id].isHost && x.score == entries[x.id].score)
  {
    var eligible := Eligible(entries, order, me);
    var sorted := SortDesc(eligible);
    SortDescSpec(eligible);
    var c := HackCandidates(entries, order, me);
    forall x | x in c
      ensures x.id in entries && x.id != me && !entries[x.id].isHost && x.score == entries[x.id].score
    {
      assert x in multiset(sorted);
      assert x in eligible;
    }
  }

  /** Nobody eligible who is left off the list scores more than anybody on it. */
  lemma HackCandidatesTop(entries: map<string, Entry>, order: seq<string>, me: string, k: nat)
    requires forall k | 0 <= k < |order| :: order[k] in entries
    requires k < |order| && order[k] != me && !entries[order[k]].isHost
    ensures var c := HackCandidates(entries, order, me);
      var y := Candidate(order[k], entries[order[k]].score);
      y in c || forall x | x in c :: x.score >= y.score
  {
    var eligible := Eligible(entries, order, me);
    var sorted := SortDesc(eligible);
    SortDescSpec(eligible);
    var y := Candidate(order[k], entries[order[k]].score);
    assert y in eligible;
    assert y in multiset(sorted);
    SortedPrefixTop(sorted, if |sorted| < 5 then |sorted| else 5, y);
  }

  /**
    Among players of equal score, the list keeps the first ones in
    leaderboard order: those of score `v` on the list are the first
    eligible players of score `v`.
   */
  lemma HackCandidatesTies(entries: map<string, Entry>, order: seq<string>, me: string, v: int)
    requires forall k | 0 <= k < |order| :: order[k] in entries
    ensures var c, e := HackCandidates(entries, order, me), Eligible(entries, order, me);
      |WithScore(c, v)| <= |WithScore(e, v)| && WithScore(c, v) == WithScore(e, v)[..|WithScore(c, v)|]
  {
    var e := Eligible(entries, order, me);
    var sorted := SortDesc(e);
    var n := if |sorted| < 5 then |sorted| else 5;
    SortDescStable(e, v);
    assert sorted == sorted[..n] + sorted[n..];
    WithScoreAppend(sorted[..n], sorted[n..], v);
  }

  /** An element of a descending list is in its prefix or below everything in it. */
  lemma SortedPrefixTop(sorted: seq<Candidate>, n: nat, y: Candidate)
    requires SortedDesc(sorted) && y in sorted && n <= |sorted|
    ensures y in sorted[..n] || forall x | x in sorted[..n] :: x.score >= y.score
  {
    var i :| 0 <= i < |sorted| && sorted[i] == y;
    if i >= n {
      forall x | x in sorted[..n]
        ensures x.score >= y.score
      {
        var j :| 0 <= j < n && sorted[..n][j] == x;
        assert sorted[j] == x;
      }
    }
  }

  /** The place a roll in [0, 100) aims at: 40% the leader, then 25%, 20%, 10% and 5%. */
  function RollBucket(roll: real): nat {
    if roll < 40.0 then 0
    else if roll < 65.0 then 1
    else if roll < 85.0 then 2
    else if roll < 95.0 then 3
    else 4
  }

  /**
    The weighted pick of `showHackModal` among `n >= 1` candidates, for a
    roll in [0, 100): the candidate the roll aims at when the list reaches
    that far, and otherwise the leader.
   */
  function ChooseTarget(n: nat, roll: real): (k: nat)
    requires n >= 1
    ensures k < n
    ensures k == if RollBucket(roll) < n then RollBucket(roll) else 0
    ensures roll < 40.0 ==> k == 0
    ensures 40.0 <= roll < 65.0 && n >= 2 ==> k == 1
    ensures 65.0 <= roll < 85.0 && n >= 3 ==> k == 2
    ensures 85.0 <= roll < 95.0 && n >= 4 ==> k == 3
    ensures k == 4 <==> roll >= 95.0 && n >= 5
    ensures k == 0 <==>
      roll < 40.0 || (n <= 4 && (roll >= 65.0 || n == 1) && (roll >= 85.0 || n <= 2) && (roll >= 95.0 || n <= 3))
  {
    if roll < 40.0 then 0
    else if roll < 65.0 && n > 1 then 1
    else if roll < 85.0 && n > 2 then 2
    else if roll < 95.0 && n > 3 then 3
    else if n > 4 then 4
    else 0
  }

  /** What `showHackModal` leads to. */
  datatype HackChoice = NoTargets | NoPassword(targetId: string) | PickPassword(targetId: string, password: string)

  /** A JavaScript-falsy password (null or the empty string) cannot be hacked. */
  predicate HasPassword(e: Entry) {
    e.password.Some? && e.password.value != ""
  }

  // ---------------------------------------------------------------------
  // The scene

  /** A hack broadcast, as the hack log stores it. */
  datatype HackEvent = HackEvent(hackerId: string, hackerName: string, victimId: string, victimName: string,
                                 stolenPoints: int, newVictimScore: int, newHackerScore: int)

  /** The board after a hack event: the victim's score, then the hacker's, as the event states them. */
  function ApplyHack(entries: map<string, Entry>, e: HackEvent): map<string, Entry> {
    var v := if e.victimId in entries then entries[e.victimId := entries[e.victimId].(score := e.newVictimScore)] else entries;
    if e.hackerId in v then v[e.hackerId := v[e.hackerId].(score := e.newHackerScore)] else v
  }

  /**
    A hack event touches only the scores of the hacker and the victim,
    adds and removes nobody, and leaves them at the scores it announces.
   */
  lemma ApplyHackSpec(entries: map<string, Entry>, e: HackEvent)
    ensures var r := ApplyHack(entries, e);
      && r.Keys == entries.Keys
      && (e.hackerId in r ==> r[e.hackerId].score == e.newHackerScore)
      && (e.victimId in r && e.victimId != e.hackerId ==> r[e.victimId].score == e.newVictimScore)
      && (forall id | id in r && id != e.victimId && id != e.hackerId :: r[id] == entries[id])
      && (forall id | id in r :: r[id] == entries[id].(score := r[id].score))
  {
  }

  /**
    A hack announced by `attemptHack` and applied by every client moves
    points between the two players without creating or losing any.
   */
  lemma HackConserves(entries: map<string, Entry>, hackerScore: int, e: HackEvent)
    requires e.victimId in entries && e.hackerId in entries && e.victimId != e.hackerId
    requires entries[e.victimId].score >= 0 && entries[e.hackerId].score == hackerScore
    requires e.stolenPoints == Steal(entries[e.victimId].score)
    requires e.newVictimScore == entries[e.victimId].score - e.stolenPoints
    requires e.newHackerScore == hackerScore + e.stolenPoints
    ensures var r := ApplyHack(entries, e);
      && r[e.victimId].score + r[e.hackerId].score == entries[e.victimId].score + entries[e.hackerId].score
      && 0 <= r[e.victimId].score <= entries[e.victimId].score
  {
    ApplyHackSpec(entries, e);
  }

  /** A message this client emits. */
  datatype Message =
    | ScoreUpdate(playerId: string, playerName: string, score: int, isHost: bool)
    | CryptoMinerTickMsg
    | HackAttempt(event: HackEvent)
    | RemoveShieldMsg(playerId: string)
    | ActivateShieldMsg(playerId: string)
    | CountdownTickMsg(secondsRemaining: int)
    | GameTimerStarted
    | NotifyLateJoiner(lateJoinerId: string)

  class HackerScene {
    const isHost: bool
    /** This client's socket id and player name. */
    const me: string
    const myName: string

    var score: int
    var gameStartTime: Option<int>
    var gameDuration: int
    var gameActive: bool
    var timerStarted: bool
    var passwordCountdown: int
    var passwordCountdownStartTime: int
    var playerScores: map<string, Entry>
    /** The keys of `playerScores` in insertion order. */
    var order: seq<string>
    var hackLog: seq<HackEvent>
    var hasShield: bool
    var cryptoMinerQuestionsLeft: int
    /**
      The ids recorded as having chosen a password. The map belongs to the
      multiplayer manager and outlives the scene; the scene reads and adds to it.
     */
    var passwordsSelected: set<string>
    var currentQuestion: Option<Question>
    var sent: seq<Message>

    ghost predicate Valid()
      reads this`playerScores, this`order, this`cryptoMinerQuestionsLeft
    {
      && OrderMatches(Board(playerScores, order))
      && 0 <= cryptoMinerQuestionsLeft <= 10
    }

    /** `create`: every room member starts with a fresh entry. */
    constructor (isHost: bool, me: string, myName: string, players: seq<Member>, selected: set<string>)
      ensures Valid()
      ensures this.isHost == isHost && this.me == me && this.myName == myName
      ensures score == 0 && gameStartTime.None? && gameDuration == 0 && !gameActive && !timerStarted
      ensures !hasShield && cryptoMinerQuestionsLeft == 0 && hackLog == [] && sent == [] && currentQuestion.None?
      ensures passwordsSelected == selected
      ensures forall id :: id in playerScores <==> exists k | 0 <= k < |players| :: players[k].id == id
      ensures forall id | id in playerScores :: exists k | 0 <= k < |players| ::
        && players[k].id == id && playerScores[id] == FreshEntry(players[k])
        && forall m | k < m < |players| :: players[m].id != id
      ensures Board(playerScores, order) == Load(players)
      ensures order == AddMembers(Board(map[], []), players).order
      ensures forall i, j | 0 <= i < j < |order| :: ListedBefore(players, order[i], order[j])
    {
      this.isHost := isHost;
      this.me := me;
      this.myName := myName;
      score := 0;
      gameStartTime := None;
      gameDuration := 0;
      gameActive := false;
      timerStarted := false;
      passwordCountdown := PASSWORD_SECONDS;
      passwordCountdownStartTime := 0;
      hackLog := [];
      hasShield := false;
      cryptoMinerQuestionsLeft := 0;
      passwordsSelected := selected;
      currentQuestion := None;
      sent := [];
      var entries: map<string, Entry> := map[];
      var ord: seq<string> := [];
      for i := 0 to |players|
        invariant Board(entries, ord) == Load(players[..i])
      {
        assert players[..i + 1][..i] == players[..i];
        var p := players[i];
        if p.id !in entries {
          ord := ord + [p.id];
        }
        entries := entries[p.id := FreshEntry(p)];
      }
      assert players[..|players|] == players;
      LoadSpec(players);
      playerScores := entries;
      order := ord;
    }

    /**
      The room-updated listener: players missing from the board are added
      with fresh entries, present ones are left alone.
     */
    method RoomUpdated(players: seq<Member>)
      requires Valid()
      modifies this`playerScores, this`order
      ensures Valid()
      ensures Board(playerScores, order) == AddMembers(Board(old(playerScores), old(order)), players)
      ensures forall i, j | |old(order)| <= i < j < |order| :: ListedBefore(players, order[i], order[j])
    {
      ghost var b0 := Board(playerScores, order);
      for i := 0 to |players|
        invariant Board(playerScores, order) == AddMembers(b0, players[..i])
      {
        assert players[..i + 1][..i] == players[..i];
        var p := players[i];
        if p.id !in playerScores {
          playerScores := playerScores[p.id := FreshEntry(p)];
          order := order + [p.id];
        }
      }
      assert players[..|players|] == players;
      AddMembersKeys(b0, players);
      AddMembersOrder(b0, players);
    }

    /**
      The password-selected listener: records the choice, adding the player
      if unknown; a non-host whose own choice arrives after the timer
      started is asked a question at once, and the host checks whether
      everybody is ready.
     */
    method PasswordSelected(playerId: string, playerName: string, password: string, players: seq<Member>, now: int)
      returns (askQuestion: bool)
      requires Valid()
      modifies this`passwordsSelected, this`playerScores, this`order, this`timerStarted, this`gameStartTime, this`sent
      ensures Valid()
      ensures passwordsSelected == old(passwordsSelected) + {playerId}
      ensures playerId in old(playerScores) ==>
        playerScores == old(playerScores)[playerId := old(playerScores)[playerId].(password := Some(password))]
        && order == old(order)
      ensures playerId !in old(playerScores) ==>
        playerScores == old(playerScores)[playerId := Entry(playerName, 0, Some(password), false, false)]
        && order == old(order) + [playerId]
      ensures !isHost ==> timerStarted == old(timerStarted) && gameStartTime == old(gameStartTime) && sent == old(sent)
      ensures isHost && AllPasswordsSelected(players, passwordsSelected) && !old(timerStarted) ==>
        timerStarted && gameStartTime == Some(now) && sent == old(sent) + [GameTimerStarted]
      ensures isHost && !(AllPasswordsSelected(players, passwordsSelected) && !old(timerStarted)) ==>
        timerStarted == old(timerStarted) && gameStartTime == old(gameStartTime) && sent == old(sent)
      ensures askQuestion <==> playerId == me && gameActive && !isHost && timerStarted
    {
      passwordsSelected := passwordsSelected + {playerId};
      if playerId in playerScores {
        playerScores := playerScores[playerId := playerScores[playerId].(password := Some(password))];
      } else {
        playerScores := playerScores[playerId := Entry(playerName, 0, Some(password), false, false)];
        order := order + [playerId];
      }
      askQuestion := playerId == me && gameActive && !isHost && timerStarted;
      if isHost {
        CheckAllPasswords(players, now);
      }
    }

    /** Every non-host member has chosen a password. */
    static predicate AllPasswordsSelected(players: seq<Member>, selected: set<string>) {
      forall k | 0 <= k < |players| && !players[k].isHost :: players[k].id in selected
    }

    /**
      `checkIfAllPasswordsSelectedAndStartTimer`: the timer starts early
      only when every non-host member has a password and it has not
      started yet.
     */
    method CheckAllPasswords(players: seq<Member>, now: int)
      requires Valid()
      modifies this`timerStarted, this`gameStartTime, this`sent
      ensures Valid()
      ensures AllPasswordsSelected(players, passwordsSelected) && !old(timerStarted) ==>
        timerStarted && gameStartTime == Some(now) && sent == old(sent) + [GameTimerStarted]
      ensures !(AllPasswordsSelected(players, passwordsSelected) && !old(timerStarted)) ==>
        timerStarted == old(timerStarted) && gameStartTime == old(gameStartTime) && sent == old(sent)
    {
      var allSelected := true;
      for k := 0 to |players|
        invariant allSelected <==> forall j | 0 <= j < k && !players[j].isHost :: players[j].id in passwordsSelected
      {
        if !players[k].isHost && players[k].id !in passwordsSelected {
          allSelected := false;
        }
      }
      if allSelected && !timerStarted {
        StartTimerNow(now);
        sent := sent + [GameTimerStarted];
      }
    }

    /** `startTimerNow`: starts the clock once; later calls change nothing. */
    method StartTimerNow(now: int)
      requires Valid()
      modifies this`timerStarted, this`gameStartTime
      ensures Valid()
      ensures timerStarted
      ensures gameStartTime == if old(timerStarted) then old(gameStartTime) else Some(now)
    {
      if timerStarted {
        return;
      }
      timerStarted := true;
      gameStartTime := Some(now);
    }

    /** `startGame(duration)`: the host also opens the password countdown at `now`. */
    method StartGame(durationMinutes: int, now: int)
      requires Valid()
      modifies this`gameDuration, this`gameActive, this`timerStarted, this`passwordCountdown,
               this`passwordCountdownStartTime, this`sent
      ensures Valid()
      ensures gameDuration == durationMinutes * 60000 && gameActive && !timerStarted
      ensures passwordCountdown == PASSWORD_SECONDS
      ensures isHost ==> passwordCountdownStartTime == now && sent == old(sent) + [CountdownTickMsg(PASSWORD_SECONDS)]
      ensures !isHost ==> passwordCountdownStartTime == old(passwordCountdownStartTime) && sent == old(sent)
    {
      gameDuration := durationMinutes * 60 * 1000;
      gameActive := true;
      timerStarted := false;
      passwordCountdown := PASSWORD_SECONDS;
      if isHost {
        passwordCountdownStartTime := now;
        sent := sent + [CountdownTickMsg(PASSWORD_SECONDS)];
      }
    }

    /**
      One 100 ms tick of the host's password countdown at `now`: a tick is
      broadcast only when the shown second changes, and at zero the game
      timer starts and every player is told.
     */
    method PasswordCountdownTick(now: int) returns (stop: bool)
      requires Valid()
      modifies this`passwordCountdown, this`sent, this`timerStarted, this`gameStartTime
      ensures Valid()
      ensures var r := CountdownRemaining(now - passwordCountdownStartTime);
        && passwordCountdown == r
        && (r == old(passwordCountdown) ==> sent == old(sent) && !stop && timerStarted == old(timerStarted))
        && (r != old(passwordCountdown) && r > 0 ==>
              sent == old(sent) + [CountdownTickMsg(r)] && !stop && timerStarted == old(timerStarted))
        && (r != old(passwordCountdown) && r <= 0 ==>
              sent == old(sent) + [CountdownTickMsg(r), GameTimerStarted] && stop && timerStarted)
      ensures gameStartTime == if stop && !old(timerStarted) then Some(now) else old(gameStartTime)
    {
      var remaining := CountdownRemaining(now - passwordCountdownStartTime);
      stop := false;
      if remaining != passwordCountdown {
        passwordCountdown := remaining;
        sent := sent + [CountdownTickMsg(passwordCountdown)];
        if passwordCountdown <= 0 {
          stop := true;
          StartTimerNow(now);
          sent := sent + [GameTimerStarted];
        }
      }
    }

    /** One 100 ms tick of the game timer: the text to show, or None when the game ends. */
    method TimerTick(now: int) returns (display: Option<string>)
      requires Valid() && gameStartTime.Some?
      modifies this`gameActive
      ensures Valid()
      ensures var r := TimerRemaining(gameDuration, now - gameStartTime.value);
        && (r == 0 ==> display.None? && !gameActive)
        && (r > 0 ==> display == Some(TimerText(r)) && gameActive == old(gameActive))
    {
      var remaining := TimerRemaining(gameDuration, now - gameStartTime.value);
      if remaining == 0 {
        gameActive := false;
        display := None;
      } else {
        display := Some(TimerText(remaining));
      }
    }

    /** The game-timer-started listener: non-hosts mark the timer started; their start time stays unset. */
    method GameTimerStartedReceived() returns (askQuestion: bool)
      requires Valid()
      modifies this`timerStarted
      ensures Valid()
      ensures timerStarted == (old(timerStarted) || !isHost)
      ensures askQuestion <==> !isHost && me in passwordsSelected
    {
      askQuestion := false;
      if !isHost {
        timerStarted := true;
        askQuestion := me in passwordsSelected;
      }
    }

    /** The late-joiner-connected listener: only a host whose timer runs notifies the newcomer. */
    method LateJoinerConnected(playerId: string)
      requires Valid()
      modifies this`sent
      ensures Valid()
      ensures sent == if timerStarted && isHost then old(sent) + [NotifyLateJoiner(playerId)] else old(sent)
    {
      if timerStarted && isHost {
        sent := sent + [NotifyLateJoiner(playerId)];
      }
    }

    /** `generateNewQuestion`: a player gets a question only while the game runs and after choosing a password. */
    method GenerateNewQuestion(q: Question)
      requires Valid()
      modifies this`currentQuestion
      ensures Valid()
      ensures gameActive && (isHost || me in passwordsSelected) ==> currentQuestion == Some(q)
      ensures !(gameActive && (isHost || me in passwordsSelected)) ==> currentQuestion == old(currentQuestion)
    {
      if !gameActive {
        return;
      }
      if !isHost && me !in passwordsSelected {
        return;
      }
      currentQuestion := Some(q);
    }

    /**
      `checkAnswer`: a correct answer adds exactly 100, announces the new
      score and a crypto-miner tick, and uses up one miner question.
      A wrong answer changes nothing.
     */
    method CheckAnswer(selected: string) returns (correct: bool)
      requires Valid() && currentQuestion.Some?
      modifies this`score, this`sent, this`cryptoMinerQuestionsLeft
      ensures Valid()
      ensures correct <==> selected == currentQuestion.value.answer
      ensures correct ==>
        && score == old(score) + 100
        && sent == old(sent) + [ScoreUpdate(me, myName, score, isHost), CryptoMinerTickMsg]
        && cryptoMinerQuestionsLeft == if old(cryptoMinerQuestionsLeft) > 0 then old(cryptoMinerQuestionsLeft) - 1 else 0
      ensures !correct ==> score == old(score) && sent == old(sent) && cryptoMinerQuestionsLeft == old(cryptoMinerQuestionsLeft)
    {
      correct := selected == currentQuestion.value.answer;
      if correct {
        score := score + 100;
        sent := sent + [ScoreUpdate(me, myName, score, isHost)];
        sent := sent + [CryptoMinerTickMsg];
        if cryptoMinerQuestionsLeft > 0 {
          cryptoMinerQuestionsLeft := cryptoMinerQuestionsLeft - 1;
        }
      }
    }

    /** `rollReward` one second after a correct answer, at `now` with `roll` in [0, 100). */
    method RollReward(now: int, roll: real) returns (r: Reward)
      requires 0.0 <= roll < 100.0
      ensures r == RewardFor(AfterOneMinute(now, gameStartTime), roll)
      ensures r == Hack ==> AfterOneMinute(now, gameStartTime)
      ensures r == NextQuestion ==> !AfterOneMinute(now, gameStartTime)
    {
      var afterOneMinute := AfterOneMinute(now, gameStartTime);
      RewardTables(now, gameStartTime, roll);
      r := RewardFor(afterOneMinute, roll);
    }

    /** The crypto-miner-tick listener: +1 while the miner runs. */
    method CryptoMinerTick()
      requires Valid()
      modifies this`score, this`sent
      ensures Valid()
      ensures cryptoMinerQuestionsLeft > 0 ==> score == old(score) + 1 && sent == old(sent) + [ScoreUpdate(me, myName, score, isHost)]
      ensures cryptoMinerQuestionsLeft <= 0 ==> score == old(score) && sent == old(sent)
    {
      if cryptoMinerQuestionsLeft > 0 {
        score := score + 1;
        sent := sent + [ScoreUpdate(me, myName, score, isHost)];
      }
    }

    /** `triggerMultiplier`: the score is multiplied by 2, 3 or 4. */
    method TriggerMultiplier(roll: real) returns (m: int)
      requires Valid()
      modifies this`score, this`sent
      ensures Valid()
      ensures m == MultiplierFor(roll) && 2 <= m <= 4
      ensures score == old(score) * m
      ensures sent == old(sent) + [ScoreUpdate(me, myName, score, isHost)]
    {
      m := MultiplierFor(roll);
      score := score * m;
      sent := sent + [ScoreUpdate(me, myName, score, isHost)];
    }

    /** `triggerCryptoMiner`: the miner runs for the next ten questions. */
    method TriggerCryptoMiner()
      requires Valid()
      modifies this`cryptoMinerQuestionsLeft
      ensures Valid()
      ensures cryptoMinerQuestionsLeft == 10
    {
      cryptoMinerQuestionsLeft := 10;
    }

    /** `triggerShield`: raises the shield locally and announces it. */
    method TriggerShield()
      requires Valid()
      modifies this`hasShield, this`playerScores, this`sent
      ensures Valid()
      ensures hasShield
      ensures playerScores == if me in old(playerScores) then old(playerScores)[me := old(playerScores)[me].(hasShield := true)]
                              else old(playerScores)
      ensures sent == old(sent) + [ActivateShieldMsg(me)]
    {
      hasShield := true;
      if me in playerScores {
        playerScores := playerScores[me := playerScores[me].(hasShield := true)];
      }
      sent := sent + [ActivateShieldMsg(me)];
    }

    /**
      `showHackModal`: no target when nobody else plays; otherwise the
      weighted pick among the top five, which can only be hacked if it has
      a password.
     */
    method ShowHackModal(roll: real) returns (choice: HackChoice)
      requires Valid()
      ensures var c := HackCandidates(playerScores, order, me);
        && (choice.NoTargets? <==> c == [])
        && (c != [] ==> choice.targetId == c[ChooseTarget(|c|, roll)].id)
      ensures choice.PickPassword? ==>
        choice.targetId in playerScores && HasPassword(playerScores[choice.targetId])
        && choice.password == playerScores[choice.targetId].password.value
      ensures choice.NoPassword? ==> choice.targetId in playerScores && !HasPassword(playerScores[choice.targetId])
      ensures !choice.NoTargets? ==> choice.targetId != me && !playerScores[choice.targetId].isHost
    {
      var c := HackCandidates(playerScores, order, me);
      HackCandidatesSpec(playerScores, order, me);
      if c == [] {
        return NoTargets;
      }
      var target := c[ChooseTarget(|c|, roll)];
      assert target in c;
      var e := playerScores[target.id];
      if !HasPassword(e) {
        return NoPassword(target.id);
      }
      choice := PickPassword(target.id, e.password.value);
    }

    /**
      `attemptHack`: with the right password and no shield, 30% of the
      victim's score is claimed in a hack-attempt message. No score changes
      here: scores change only when a hack-event arrives, and server.cjs
      forwards hack-attempt under its own name, so that needs another server.
      A shielded target costs its shield; a wrong password does nothing.
     */
    method AttemptHack(targetId: string, success: bool)
      requires Valid() && targetId in playerScores
      modifies this`sent
      ensures Valid()
      ensures var t := playerScores[targetId];
        && (success && !t.hasShield ==>
              sent == old(sent) + [HackAttempt(HackEvent(me, myName, targetId, t.name, Steal(t.score),
                                                           t.score - Steal(t.score), score + Steal(t.score)))])
        && (t.hasShield ==> sent == old(sent) + [RemoveShieldMsg(targetId)])
        && (!success && !t.hasShield ==> sent == old(sent))
    {
      var t := playerScores[targetId];
      if success && !t.hasShield {
        var stolen := Steal(t.score);
        sent := sent + [HackAttempt(HackEvent(me, myName, targetId, t.name, stolen, t.score - stolen, score + stolen))];
      } else if t.hasShield {
        sent := sent + [RemoveShieldMsg(targetId)];
      }
    }

    /** The hack-event listener: the event is logged and both players' scores follow it. */
    method HackEventReceived(e: HackEvent)
      requires Valid()
      modifies this`hackLog, this`score, this`playerScores
      ensures Valid()
      ensures hackLog == old(hackLog) + [e]
      ensures playerScores == ApplyHack(old(playerScores), e)
      ensures score == if e.hackerId == me then e.newHackerScore else if e.victimId == me then e.newVictimScore else old(score)
    {
      hackLog := hackLog + [e];
      if e.victimId == me {
        score := e.newVictimScore;
      }
      if e.hackerId == me {
        score := e.newHackerScore;
      }
      ApplyHackSpec(playerScores, e);
      SameKeysOrderMatches(playerScores, ApplyHack(playerScores, e), order);
      playerScores := ApplyHack(playerScores, e);
    }

    /** The player-score-update listener: known entries take the new score; nobody is added. */
    method PlayerScoreUpdate(playerId: string, newScore: int)
      requires Valid()
      modifies this`playerScores, this`score
      ensures Valid()
      ensures playerId in old(playerScores) ==> playerScores == old(playerScores)[playerId := old(playerScores)[playerId].(score := newScore)]
      ensures playerId !in old(playerScores) ==> playerScores == old(playerScores)
      ensures score == if !isHost && playerId == me then newScore else old(score)
    {
      if playerId in playerScores {
        playerScores := playerScores[playerId := playerScores[playerId].(score := newScore)];
      }
      if !isHost && playerId == me {
        score := newScore;
      }
    }

    /** `updatePlayerScore`: updates the score of a known entry or inserts a new one. */
    method UpdatePlayerScore(playerId: string, playerName: Option<string>, newScore: int, playerIsHost: bool)
      requires Valid()
      modifies this`playerScores, this`order
      ensures Valid()
      ensures playerId in old(playerScores) ==>
        playerScores == old(playerScores)[playerId := old(playerScores)[playerId].(score := newScore)] && order == old(order)
      ensures playerId !in old(playerScores) ==>
        && playerScores == old(playerScores)[playerId := Entry(if playerName.Some? && playerName.value != "" then playerName.value else "Unknown",
                                                                newScore, None, false, playerIsHost)]
        && order == old(order) + [playerId]
    {
      if playerId in playerScores {
        playerScores := playerScores[playerId := playerScores[playerId].(score := newScore)];
      } else {
        var name := if playerName.Some? && playerName.value != "" then playerName.value else "Unknown";
        playerScores := playerScores[playerId := Entry(name, newScore, None, false, playerIsHost)];
        order := order + [playerId];
      }
    }

    /** `handleRemoveShield`: the player's shield drops, and so does one's own if it is us. */
    method RemoveShield(playerId: string)
      requires Valid()
      modifies this`playerScores, this`hasShield
      ensures Valid()
      ensures playerScores == if playerId in old(playerScores) then old(playerScores)[playerId := old(playerScores)[playerId].(hasShield := false)]
                              else old(playerScores)
      ensures hasShield == (old(hasShield) && playerId != me)
    {
      if playerId in playerScores {
        playerScores := playerScores[playerId := playerScores[playerId].(hasShield := false)];
      }
      if playerId == me {
        hasShield := false;
      }
    }

    /** `handleActivateShield`: the player's entry shows a shield. */
    method ActivateShield(playerId: string)
      requires Valid()
      modifies this`playerScores
      ensures Valid()
      ensures playerScores == if playerId in old(playerScores) then old(playerScores)[playerId := old(playerScores)[playerId].(hasShield := true)]
                              else old(playerScores)
    {
      if playerId in playerScores {
        playerScores := playerScores[playerId := playerScores[playerId].(hasShield := true)];
      }
    }

    /** `endGame`. */
    method EndGame()
      requires Valid()
      modifies this`gameActive
      ensures Valid()
      ensures !gameActive
    {
      gameActive := false;
    }
  }
}
