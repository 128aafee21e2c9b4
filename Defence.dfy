/**
  The tower-defence scene with rendering stripped out: the monster table
  keyed by id, the host's spawn and boss rule, wave progression when a boss
  dies, peer-side application of damage, kill, snapshot and wave messages,
  ammunition, base health and the arithmetic question generator.

  Monster positions, motion and the freeze slow-down are not modelled; the
  monsters that reach the base in a frame are given (`MonstersReachBase`).
  Each delayed callback (a projectile landing, a sprite destroyed 300 ms
  after death) is a separate method the environment calls later.
 */
module Defence {
  import opened Text

  const LANES := 6
  const BASE_MONSTER_SPEED := 15
  const BASE_HEALTH := 10
  const MONSTER_DAMAGE := 10
  const MAX_AMMO := 999
  const AMMO_PER_QUESTION := 2
  const BOSS_HEALTH_MULTIPLIER := 8
  /** `create` starts every player with this much ammunition. */
  const INITIAL_AMMO := 9999
  /** The boss always appears in lane `floor(LANES / 2)`. */
  const BOSS_LANE := 3

  // ---------------------------------------------------------------------
  // Questions

  /** The three operations, chosen by index 0, 1, 2. */
  function ApplyOp(op: int, a: int, b: int): int {
    if op == 0 then a + b else if op == 1 then a - b else a * b
  }

  /** The ranges `Phaser.Math.Between` draws from for each operation. */
  predicate DrawsFit(difficulty: int, op: int, a: int, b: int) {
    && 0 <= op <= (if difficulty - 1 < 2 then difficulty - 1 else 2)
    && (op == 0 ==> 5 * difficulty <= a <= 15 * difficulty && 1 <= b <= 10 * difficulty)
    && (op == 1 ==> 10 * difficulty <= a <= 20 * difficulty && 1 <= b <= 10 * difficulty)
    && (op == 2 ==> 2 <= a <= difficulty + 5 && 2 <= b <= (if difficulty + 3 < 12 then difficulty + 3 else 12))
  }

  /**
    `generateQuestion(difficulty)` for the drawn operation index and
    operands. Every answer is a plain digit string (subtraction never goes
    below zero) denoting the result of the operation shown, and wave 1 only
    ever asks additions.
   */
  function GenerateQuestion(difficulty: int, op: int, a: nat, b: nat): (q: Question)
    requires difficulty >= 1 && DrawsFit(difficulty, op, a, b)
    ensures AllDigits(q.answer) && DigitsValue(q.answer) == ApplyOp(op, a, b)
    ensures op == 0 ==> q.question == NatToString(a) + " + " + NatToString(b) && DigitsValue(q.answer) == a + b
    ensures op == 1 ==> q.question == NatToString(a) + " - " + NatToString(b) && DigitsValue(q.answer) == a - b
    ensures op == 2 ==> q.question == NatToString(a) + " × " + NatToString(b) && DigitsValue(q.answer) == a * b
    ensures difficulty == 1 ==> op == 0
  {
    NatToStringSpec(ApplyOp(op, a, b));
    var symbol := if op == 0 then " + " else if op == 1 then " - " else " × ";
    Question(NatToString(a) + symbol + NatToString(b), NatToString(ApplyOp(op, a, b)))
  }

  // ---------------------------------------------------------------------
  // Weapons

  datatype Weapon = Basic | Power | Freeze

  function Damage(w: Weapon): nat {
    match w
    case Basic => 15
    case Power => 50
    case Freeze => 20
  }

  function Cost(w: Weapon): nat {
    match w
    case Basic => 1
    case Power => 3
    case Freeze => 2
  }

  /** `addAmmo`: the new ammunition is capped at MAX_AMMO. */
  function AmmoAfterGain(ammo: int, amount: int): (r: int)
    ensures r <= MAX_AMMO
    ensures r == ammo + amount || r == MAX_AMMO
    ensures ammo + amount <= MAX_AMMO ==> r == ammo + amount
  {
    if ammo + amount < MAX_AMMO then ammo + amount else MAX_AMMO
  }

  /** Starting at 9999, the first correct answer drops ammunition to the cap. */
  lemma FirstGainLowersAmmo()
    ensures AmmoAfterGain(INITIAL_AMMO, AMMO_PER_QUESTION) == MAX_AMMO < INITIAL_AMMO
  {
  }

  /** `damageBase`/`syncBaseDamage`: health never drops below zero. */
  function BaseAfterDamage(health: int, amount: int): (r: int)
    ensures r >= 0
    ensures r == health - amount || r == 0
    ensures health - amount > 0 ==> r == health - amount
    ensures health - amount <= 0 ==> r == 0
    ensures amount >= 0 ==> r <= health || health < 0
  {
    if health - amount > 0 then health - amount else 0
  }

  // ---------------------------------------------------------------------
  // Monsters

  /** The payload of monster-spawned and of each sync-all-monsters entry. */
  datatype MonsterData = MonsterData(id: string, lane: int, health: int, speed: real, difficulty: int, isBoss: bool)

  /** A live monster as `createMonster` records it. */
  datatype Monster = Monster(id: string, lane: int, health: int, maxHealth: int, speed: real,
                             damage: int, difficulty: int, isBoss: bool)

  /** `createMonster`: `maxHealth` is the health carried by the data; bosses hit the base three times as hard. */
  function FromData(d: MonsterData): (m: Monster)
    ensures m.id == d.id && m.health == d.health && m.maxHealth == d.health
    ensures m.damage == if d.isBoss then 3 * MONSTER_DAMAGE else MONSTER_DAMAGE
  {
    Monster(d.id, d.lane, d.health, d.health, d.speed, if d.isBoss then MONSTER_DAMAGE * 3 else MONSTER_DAMAGE,
            d.difficulty, d.isBoss)
  }

  function NormalId(sid: string, n: nat): string {
    sid + "-" + NatToString(n)
  }

  function BossId(sid: string, n: nat): string {
    "BOSS-" + sid + "-" + NatToString(n)
  }

  /** An id this scene issues for counter value `n`. */
  predicate IssuedAs(id: string, sid: string, n: nat) {
    id == NormalId(sid, n) || id == BossId(sid, n)
  }

  /** `id` is none of the ids issued for the counters below `n`. */
  predicate NotIssuedBefore(id: string, sid: string, n: nat) {
    forall k | 0 <= k < n :: !IssuedAs(id, sid, k)
  }

  /** Two renderings agree after a common prefix only if the numbers agree. */
  lemma SuffixInjective(prefix: string, m: nat, n: nat)
    ensures prefix + NatToString(m) == prefix + NatToString(n) ==> m == n
  {
    if prefix + NatToString(m) == prefix + NatToString(n) {
      assert (prefix + NatToString(m))[|prefix|..] == NatToString(m);
      assert (prefix + NatToString(n))[|prefix|..] == NatToString(n);
      NatToStringInjective(m, n);
    }
  }

  /**
    A normal id and a boss id of one scene never coincide: in a normal id
    the character five places after the socket id's '-' is a digit, in a
    boss id of the same length it is the final '-'.
   */
  lemma NormalIsNotBoss(sid: string, m: nat, n: nat)
    ensures NormalId(sid, m) != BossId(sid, n)
  {
    var a, b := NatToString(m), NatToString(n);
    var x := (sid + "-") + a;
    var y := ("BOSS-" + sid + "-") + b;
    assert NormalId(sid, m) == x && BossId(sid, n) == y;
    if |x| == |y| {
      var k := |sid| + 5;
      NatToStringSpec(m);
      assert |a| >= 5;
      assert x[k] == a[4] && IsDigit(a[4]);
      assert y[k] == '-';
      assert x[k] != y[k];
    }
  }

  /**
    Two ids issued by one scene are equal only when they were issued for
    the same counter value and are of the same kind.
   */
  lemma IdsDistinct(sid: string, m: nat, n: nat)
    ensures NormalId(sid, m) == NormalId(sid, n) ==> m == n
    ensures BossId(sid, m) == BossId(sid, n) ==> m == n
    ensures NormalId(sid, m) != BossId(sid, n)
  {
    SuffixInjective(sid + "-", m, n);
    SuffixInjective("BOSS-" + sid + "-", m, n);
    assert NormalId(sid, m) == (sid + "-") + NatToString(m);
    assert NormalId(sid, n) == (sid + "-") + NatToString(n);
    assert BossId(sid, m) == ("BOSS-" + sid + "-") + NatToString(m);
    assert BossId(sid, n) == ("BOSS-" + sid + "-") + NatToString(n);
    NormalIsNotBoss(sid, m, n);
  }

  /** A sequence of ids issued for counters 0, 1, 2, ... has no repeats. */
  lemma IssuedIdsDistinct(sid: string, ids: seq<string>)
    requires forall k | 0 <= k < |ids| :: IssuedAs(ids[k], sid, k)
    ensures forall i, j | 0 <= i < j < |ids| :: ids[i] != ids[j]
  {
    forall i, j | 0 <= i < j < |ids|
      ensures ids[i] != ids[j]
    {
      IdsDistinct(sid, i, j);
      IdsDistinct(sid, j, i);
    }
  }

  /** The monster `spawnNormalMonster` creates with counter `n` in `lane`. */
  function NormalData(sid: string, n: nat, lane: int, difficulty: int): MonsterData {
    MonsterData(NormalId(sid, n), lane, 10 + difficulty * 5, (BASE_MONSTER_SPEED + difficulty * 8) as real, difficulty, false)
  }

  /** The boss `spawnBoss` creates: middle lane, health scaled by wave and player count, 40% speed. */
  function BossData(sid: string, n: nat, difficulty: int, playerCount: int): MonsterData {
    MonsterData(BossId(sid, n), BOSS_LANE, (50 + difficulty * 50) * BOSS_HEALTH_MULTIPLIER * playerCount,
                ((BASE_MONSTER_SPEED + difficulty * 5) as real) * 0.4, difficulty, true)
  }

  /**
    The sync-all-monsters listener on a peer: each entry whose id is absent
    from the table is created; present ids are left untouched.
   */
  function Merge(table: map<string, Monster>, data: seq<MonsterData>): map<string, Monster> {
    if data == [] then table
    else
      var before := Merge(table, data[..|data| - 1]);
      var d := data[|data| - 1];
      if d.id in before then before else before[d.id := FromData(d)]
  }

  /** The ids after a merge: the peer's own and every id the snapshot carries. */
  lemma {:induction false} MergeKeys(table: map<string, Monster>, data: seq<MonsterData>)
    ensures Merge(table, data).Keys == table.Keys + set k | 0 <= k < |data| :: data[k].id
  {
    if data != [] {
      var init := data[..|data| - 1];
      MergeKeys(table, init);
      var d := data[|data| - 1];
      var ids := set k | 0 <= k < |data| :: data[k].id;
      var initIds := set k | 0 <= k < |init| :: init[k].id;
      assert ids == initIds + {d.id} by {
        forall x | x in ids ensures x in initIds + {d.id} {
          var k :| 0 <= k < |data| && data[k].id == x;
          if k < |init| { assert init[k].id == x; }
        }
      }
    }
  }

  /**
    A snapshot never removes or alters an entry the peer already has, and
    every id it carries ends up in the table, created from the first entry
    that carries it. An id the peer has already destroyed is therefore
    recreated by a later snapshot that still lists it.
   */
  lemma {:induction false} MergeSpec(table: map<string, Monster>, data: seq<MonsterData>)
    ensures forall id | id in table :: id in Merge(table, data) && Merge(table, data)[id] == table[id]
    ensures forall id | id in Merge(table, data) && id !in table ::
      exists k | 0 <= k < |data| ::
        data[k].id == id && Merge(table, data)[id] == FromData(data[k]) && forall j | 0 <= j < k :: data[j].id != id
  {
    if data != [] {
      var init := data[..|data| - 1];
      MergeSpec(table, init);
      MergeKeys(table, init);
      MergeKeys(table, data);
      var before := Merge(table, init);
      var d := data[|data| - 1];
      assert forall k | 0 <= k < |init| :: init[k] == data[k];
      var after := Merge(table, data);
      forall id | id in after && id !in table
        ensures exists k | 0 <= k < |data| ::
          data[k].id == id && after[id] == FromData(data[k]) && forall j | 0 <= j < k :: data[j].id != id
      {
        if id in before {
          var k :| 0 <= k < |init| &&
            init[k].id == id && before[id] == FromData(init[k]) && forall j | 0 <= j < k :: init[j].id != id;
          assert data[k].id == id && after[id] == FromData(data[k]);
        } else {
          assert id == d.id;
          forall j | 0 <= j < |init|
            ensures data[j].id != id
          {
            assert init[j].id in before.Keys;
          }
          assert data[|data| - 1].id == id && after[id] == FromData(data[|data| - 1]);
        }
      }
    }
  }

  /** What the host puts in a sync-all-monsters entry for a live monster. */
  function SnapshotEntry(m: Monster): MonsterData {
    MonsterData(m.id, m.lane, m.health, m.speed, m.difficulty, m.isBoss)
  }

  /** The host's full snapshot, listing the table in its iteration order `order`. */
  function Snapshot(table: map<string, Monster>, order: seq<string>): (s: seq<MonsterData>)
    requires forall k | 0 <= k < |order| :: order[k] in table
    ensures |s| == |order|
    ensures forall k | 0 <= k < |order| :: s[k] == SnapshotEntry(table[order[k]])
  {
    seq(|order|, k requires 0 <= k < |order| => SnapshotEntry(table[order[k]]))
  }

  /**
    A peer with an empty table that receives the host's snapshot ends up
    with every host monster at the host's current health, but with that
    current health as its maximum: the snapshot's original maximum is not
    used when the peer creates the monster.
   */
  lemma SnapshotRecovers(table: map<string, Monster>, order: seq<string>)
    requires forall id | id in table :: table[id].id == id
    requires forall id | id in table :: table[id].damage == if table[id].isBoss then 3 * MONSTER_DAMAGE else MONSTER_DAMAGE
    requires forall k | 0 <= k < |order| :: order[k] in table
    requires forall id | id in table :: id in order
    ensures var peer := Merge(map[], Snapshot(table, order));
      && peer.Keys == table.Keys
      && forall id | id in table :: peer[id] == table[id].(maxHealth := table[id].health)
  {
    var s := Snapshot(table, order);
    SnapshotKeys(table, order);
    forall id | id in table
      ensures Merge(map[], s)[id] == table[id].(maxHealth := table[id].health)
    {
      SnapshotRecoversOne(table, order, id);
    }
  }

  /** A peer with an empty table learns exactly the host's ids from a full snapshot. */
  lemma SnapshotKeys(table: map<string, Monster>, order: seq<string>)
    requires forall id | id in table :: table[id].id == id
    requires forall k | 0 <= k < |order| :: order[k] in table
    requires forall id | id in table :: id in order
    ensures Merge(map[], Snapshot(table, order)).Keys == table.Keys
  {
    var s := Snapshot(table, order);
    MergeKeys(map[], s);
    var ids := set k | 0 <= k < |s| :: s[k].id;
    forall id | id in table
      ensures id in ids
    {
      var k :| 0 <= k < |order| && order[k] == id;
      assert s[k].id == id;
    }
    forall x | x in ids
      ensures x in table
    {
      var k :| 0 <= k < |s| && s[k].id == x;
      assert s[k] == SnapshotEntry(table[order[k]]);
    }
    assert ids == table.Keys;
  }

  /** One host monster as the peer creates it from the snapshot. */
  lemma SnapshotRecoversOne(table: map<string, Monster>, order: seq<string>, id: string)
    requires forall id | id in table :: table[id].id == id
    requires forall k | 0 <= k < |order| :: order[k] in table
    requires id in table && id in order
    requires table[id].damage == if table[id].isBoss then 3 * MONSTER_DAMAGE else MONSTER_DAMAGE
    ensures id in Merge(map[], Snapshot(table, order))
    ensures Merge(map[], Snapshot(table, order))[id] == table[id].(maxHealth := table[id].health)
  {
    var s := Snapshot(table, order);
    MergeKeys(map[], s);
    MergeSpec(map[], s);
    var k :| 0 <= k < |order| && order[k] == id;
    assert s[k].id == id;
    assert id in set k | 0 <= k < |s| :: s[k].id;
    var peer := Merge(map[], s);
    var j :| 0 <= j < |s| && s[j].id == id && peer[id] == FromData(s[j]);
    assert s[j] == SnapshotEntry(table[order[j]]);
    assert order[j] == id;
    SnapshotEntryRecovers(table[id]);
  }

  /** Creating a monster from its snapshot entry restores it, with its current health as the maximum. */
  lemma SnapshotEntryRecovers(m: Monster)
    requires m.damage == if m.isBoss then 3 * MONSTER_DAMAGE else MONSTER_DAMAGE
    ensures FromData(SnapshotEntry(m)) == m.(maxHealth := m.health)
  {
  }

  // ---------------------------------------------------------------------
  // Waves

  /** The counters the spawn and wave rules read and write. */
  datatype Wave = Wave(difficulty: int, spawnInterval: int, monstersPerWave: int, monstersThisWave: int, bossActive: bool)

  function InitialSpawnInterval(playerCount: int): (r: int)
    ensures r >= 300
    ensures playerCount <= 6 ==> r == 1200 - 150 * playerCount
  {
    if 1200 - playerCount * 150 > 300 then 1200 - playerCount * 150 else 300
  }

  /** Monsters per wave: two per player plus a bonus every third wave. */
  function WaveSize(difficulty: int, playerCount: nat): (r: int)
    ensures difficulty >= 0 ==> r >= 2 * playerCount
    ensures difficulty >= 0 ==> r == (2 + difficulty / 3) * playerCount
  {
    2 * playerCount + (difficulty / 3) * playerCount
  }

  /** The wave state `create` sets up. */
  function InitialWave(playerCount: nat): Wave {
    Wave(1, InitialSpawnInterval(playerCount), 2 * playerCount, 0, false)
  }

  /** What a kill does to the wave state (`killMonster`). */
  function AfterKill(w: Wave, isBoss: bool, playerCount: nat): (r: Wave)
    ensures !isBoss ==> r == w.(monstersThisWave := w.monstersThisWave + 1)
    ensures isBoss ==> r.difficulty == w.difficulty + 1 && r.monstersThisWave == 0 && !r.bossActive
    ensures isBoss ==> r.spawnInterval >= 300 && r.spawnInterval >= w.spawnInterval - 50
    ensures isBoss && w.spawnInterval >= 350 ==> r.spawnInterval == w.spawnInterval - 50
    ensures isBoss && w.spawnInterval < 350 ==> r.spawnInterval == 300
    ensures isBoss ==> r.monstersPerWave == 2 * playerCount + ((w.difficulty + 1) / 3) * playerCount
  {
    if isBoss then
      var next := w.difficulty + 1;
      Wave(next, if w.spawnInterval - 50 > 300 then w.spawnInterval - 50 else 300,
           WaveSize(next, playerCount), 0, false)
    else w.(monstersThisWave := w.monstersThisWave + 1)
  }

  function ScoreGain(isBoss: bool, difficulty: int): int {
    (if isBoss then 500 else 100) * difficulty
  }

  datatype SpawnAction = Idle | Boss | Batch(count: nat)

  /** The spawn branch of `update` for a frame at `time`. */
  function Decide(isHost: bool, isPaused: bool, time: int, lastSpawnTime: int, w: Wave, playerCount: nat): (a: SpawnAction)
    ensures a.Boss? ==> w.monstersThisWave >= w.monstersPerWave && !w.bossActive
    ensures a != Idle ==> isHost && !isPaused && time > lastSpawnTime + w.spawnInterval && !w.bossActive
    ensures isHost && !isPaused && time > lastSpawnTime + w.spawnInterval && !w.bossActive ==>
      a == if w.monstersThisWave >= w.monstersPerWave then Boss else Batch(2 * playerCount)
  {
    if isPaused || !isHost || time <= lastSpawnTime + w.spawnInterval then Idle
    else if w.monstersThisWave >= w.monstersPerWave && !w.bossActive then Boss
    else if !w.bossActive then Batch(2 * playerCount)
    else Idle
  }

  /** The spawn interval after `k` boss kills in a game with `playerCount` players. */
  function IntervalAfter(playerCount: int, k: nat): int {
    if k == 0 then InitialSpawnInterval(playerCount)
    else AfterKill(Wave(0, IntervalAfter(playerCount, k - 1), 0, 0, true), true, 0).spawnInterval
  }

  /** Each wave shortens the interval by 50 ms until it reaches the 300 ms floor. */
  lemma {:induction false} IntervalSchedule(playerCount: int, k: nat)
    ensures var base := 1200 - 150 * playerCount - 50 * k;
      IntervalAfter(playerCount, k) == if base > 300 then base else 300
  {
    if k > 0 {
      IntervalSchedule(playerCount, k - 1);
    }
  }

  /** `k` normal kills in a row. */
  function KillNormals(w: Wave, k: nat, playerCount: nat): Wave {
    if k == 0 then w else AfterKill(KillNormals(w, k - 1, playerCount), false, playerCount)
  }

  /**
    A wave cycle: after a boss kill, a due spawn brings a batch of normal
    monsters until as many normal kills as the wave size have happened,
    and then exactly the boss.
   */
  lemma {:induction false} WaveCycle(w: Wave, playerCount: nat, k: nat, time: int, last: int)
    requires w.difficulty >= 0 && playerCount >= 1
    requires time > last + AfterKill(w, true, playerCount).spawnInterval
    ensures var v := KillNormals(AfterKill(w, true, playerCount), k, playerCount);
      && v == AfterKill(w, true, playerCount).(monstersThisWave := k)
      && Decide(true, false, time, last, v, playerCount) ==
           if k >= WaveSize(w.difficulty + 1, playerCount) then Boss else Batch(2 * playerCount)
  {
    if k > 0 {
      WaveCycle(w, playerCount, k - 1, time, last);
    }
  }

  /** The ids of normal monsters issued for counters `from` up to `to`. */
  function BatchIds(sid: string, from: nat, to: nat): set<string> {
    set n: nat | from <= n < to :: NormalId(sid, n)
  }

  /** Extending a range of counters by one adds that counter's id. */
  lemma BatchIdsSnoc(sid: string, from: nat, last: nat)
    requires from <= last
    ensures BatchIds(sid, from, last + 1) == BatchIds(sid, from, last) + {NormalId(sid, last)}
  {
    forall x | x in BatchIds(sid, from, last + 1)
      ensures x in BatchIds(sid, from, last) + {NormalId(sid, last)}
    {
      var n: nat :| from <= n < last + 1 && x == NormalId(sid, n);
      if n < last {
        assert x in BatchIds(sid, from, last);
      }
    }
  }

  /** The monsters of a batch starting at counter `start`, one per drawn lane. */
  function BatchData(sid: string, start: nat, lanes: seq<int>, difficulty: int): (d: seq<MonsterData>)
    ensures |d| == |lanes|
  {
    if lanes == [] then []
    else BatchData(sid, start, lanes[..|lanes| - 1], difficulty) + [NormalData(sid, start + |lanes| - 1, lanes[|lanes| - 1], difficulty)]
  }

  /** The monster table after creating a batch of normal monsters from counter `start`. */
  function AddBatch(table: map<string, Monster>, sid: string, start: nat, lanes: seq<int>, difficulty: int): map<string, Monster> {
    if lanes == [] then table
    else
      var n := start + |lanes| - 1;
      AddBatch(table, sid, start, lanes[..|lanes| - 1], difficulty)[NormalId(sid, n) := FromData(NormalData(sid, n, lanes[|lanes| - 1], difficulty))]
  }

  /**
    A batch adds exactly the ids for counters `start` up to
    `start + |lanes|`, each holding the monster drawn for its lane, and
    leaves every other entry as it was.
   */
  lemma AddBatchSpec(table: map<string, Monster>, sid: string, start: nat, lanes: seq<int>, difficulty: int)
    ensures var t := AddBatch(table, sid, start, lanes, difficulty);
      && t.Keys == table.Keys + BatchIds(sid, start, start + |lanes|)
      && (forall n | start <= n < start + |lanes| :: t[NormalId(sid, n)] == FromData(NormalData(sid, n, lanes[n - start], difficulty)))
      && (forall id | id in table && id !in BatchIds(sid, start, start + |lanes|) :: t[id] == table[id])
  {
    AddBatchKeys(table, sid, start, lanes, difficulty);
    AddBatchNew(table, sid, start, lanes, difficulty);
    AddBatchOthers(table, sid, start, lanes, difficulty);
  }

  /** The ids after a batch: the old ones and the batch's own. */
  lemma {:induction false} AddBatchKeys(table: map<string, Monster>, sid: string, start: nat, lanes: seq<int>, difficulty: int)
    ensures AddBatch(table, sid, start, lanes, difficulty).Keys == table.Keys + BatchIds(sid, start, start + |lanes|)
  {
    if lanes != [] {
      var last := start + |lanes| - 1;
      AddBatchKeys(table, sid, start, lanes[..|lanes| - 1], difficulty);
      BatchIdsSnoc(sid, start, last);
    }
  }

  /** Each new id holds the monster drawn for its lane. */
  lemma {:induction false} AddBatchNew(table: map<string, Monster>, sid: string, start: nat, lanes: seq<int>, difficulty: int)
    ensures var t := AddBatch(table, sid, start, lanes, difficulty);
      forall n | start <= n < start + |lanes| ::
        NormalId(sid, n) in t && t[NormalId(sid, n)] == FromData(NormalData(sid, n, lanes[n - start], difficulty))
  {
    if lanes != [] {
      var init := lanes[..|lanes| - 1];
      var last := start + |lanes| - 1;
      AddBatchNew(table, sid, start, init, difficulty);
      var t := AddBatch(table, sid, start, lanes, difficulty);
      forall n | start <= n < last
        ensures NormalId(sid, n) in t && t[NormalId(sid, n)] == FromData(NormalData(sid, n, lanes[n - start], difficulty))
      {
        IdsDistinct(sid, n, last);
        assert init[n - start] == lanes[n - start];
      }
    }
  }

  /** Every entry outside the batch's ids is left as it was. */
  lemma {:induction false} AddBatchOthers(table: map<string, Monster>, sid: string, start: nat, lanes: seq<int>, difficulty: int)
    ensures var t := AddBatch(table, sid, start, lanes, difficulty);
      forall id | id in table && id !in BatchIds(sid, start, start + |lanes|) :: id in t && t[id] == table[id]
  {
    if lanes != [] {
      var last := start + |lanes| - 1;
      AddBatchOthers(table, sid, start, lanes[..|lanes| - 1], difficulty);
      BatchIdsSnoc(sid, start, last);
    }
  }

  /** One player's row in the team statistics panel. */
  datatype Stats = Stats(name: string, score: int, ammo: int, kills: int)

  /** An entry of `multiplayer.players` as the scene reads it at `create`. */
  datatype PlayerInfo = PlayerInfo(id: string, name: string)

  /** The stats panel `create` fills: one zeroed row per listed id, a later listing overwriting an earlier one. */
  function InitialStats(players: seq<PlayerInfo>): map<string, Stats>
    decreases |players|
  {
    if players == [] then map[]
    else
      var p := players[|players| - 1];
      InitialStats(players[..|players| - 1])[p.id := Stats(p.name, 0, 0, 0)]
  }

  /** `name` is the name of the last listing of `id` in `players`. */
  ghost predicate NamedByLast(players: seq<PlayerInfo>, id: string, name: string) {
    exists k | 0 <= k < |players| ::
      && players[k].id == id && players[k].name == name
      && forall m | k < m < |players| :: players[m].id != id
  }

  /** A later listing of another id leaves the last listing of `id` in place. */
  lemma NamedByLastSnoc(init: seq<PlayerInfo>, p: PlayerInfo, id: string, name: string)
    requires NamedByLast(init, id, name) && p.id != id
    ensures NamedByLast(init + [p], id, name)
  {
    var k :| 0 <= k < |init| && init[k].id == id && init[k].name == name
             && forall m | k < m < |init| :: init[m].id != id;
    var ps := init + [p];
    assert ps[k] == init[k];
    forall m | k < m < |ps| ensures ps[m].id != id {
      if m < |init| { assert ps[m] == init[m]; }
    }
  }

  /** Exactly the listed ids have a row. */
  lemma {:induction false} InitialStatsKeys(players: seq<PlayerInfo>)
    ensures forall id :: id in InitialStats(players) <==> exists k | 0 <= k < |players| :: players[k].id == id
    decreases |players|
  {
    if players != [] {
      var n := |players| - 1;
      var init, p := players[..n], players[n];
      InitialStatsKeys(init);
      assert players == init + [p];
      forall id ensures id in InitialStats(players) <==> exists k | 0 <= k < |players| :: players[k].id == id {
        if id in InitialStats(init) {
          var k :| 0 <= k < |init| && init[k].id == id;
          assert players[k].id == id;
        }
        if exists k | 0 <= k < |players| :: players[k].id == id {
          var k :| 0 <= k < |players| && players[k].id == id;
          if k < n { assert init[k].id == id; }
        }
      }
    }
  }

  /** Every row is zeroed and named after the last listing of its id. */
  lemma {:induction false} InitialStatsRows(players: seq<PlayerInfo>)
    ensures forall id | id in InitialStats(players) ::
      var r := InitialStats(players)[id];
      r.score == 0 && r.ammo == 0 && r.kills == 0 && NamedByLast(players, id, r.name)
    decreases |players|
  {
    if players != [] {
      var n := |players| - 1;
      var init, p := players[..n], players[n];
      InitialStatsRows(init);
      assert players == init + [p];
      forall id | id in InitialStats(players)
        ensures NamedByLast(players, id, InitialStats(players)[id].name)
      {
        if id == p.id {
          assert players[n].id == id;
        } else {
          NamedByLastSnoc(init, p, id, InitialStats(init)[id].name);
        }
      }
    }
  }

  /** A message this client emits. */
  datatype Message =
    | MonsterSpawned(data: MonsterData)
    | MonsterDamaged(monsterId: string, newHealth: int, weaponType: Weapon)
    | MonsterKilled(monsterId: string)
    | BaseDamaged(amount: int)
    | WaveCompleted(newWave: int, newSpawnInterval: int, newMonstersPerWave: int)
    | StatsUpdate(score: int, ammo: int, kills: int)
    | SyncAllMonsters(monsters: seq<MonsterData>)

  /** One monster-spawned message per monster, in order. */
  function Announce(d: seq<MonsterData>): (m: seq<Message>)
    ensures |m| == |d|
  {
    if d == [] then [] else Announce(d[..|d| - 1]) + [MonsterSpawned(d[|d| - 1])]
  }

  /** Growing a batch by one lane adds one monster and one announcement at the end. */
  lemma BatchStep(table: map<string, Monster>, sid: string, start: nat, lanes: seq<int>, i: nat, difficulty: int,
                  spawned: map<string, Monster>, sentBefore: seq<Message>, sent: seq<Message>)
    requires i < |lanes|
    requires spawned == AddBatch(table, sid, start, lanes[..i], difficulty)
    requires sent == sentBefore + Announce(BatchData(sid, start, lanes[..i], difficulty))
    ensures var d := NormalData(sid, start + i, lanes[i], difficulty);
      && spawned[d.id := FromData(d)] == AddBatch(table, sid, start, lanes[..i + 1], difficulty)
      && sent + [MonsterSpawned(d)] == sentBefore + Announce(BatchData(sid, start, lanes[..i + 1], difficulty))
  {
    var d := NormalData(sid, start + i, lanes[i], difficulty);
    var x := BatchData(sid, start, lanes[..i], difficulty);
    BatchSnoc(sid, start, lanes, i, difficulty);
    AddBatchSnoc(table, sid, start, lanes, i, difficulty);
    AnnounceSnoc(x, d);
    assert sent + [MonsterSpawned(d)] == sentBefore + (Announce(x) + [MonsterSpawned(d)]);
  }

  /** The lanes up to `i + 1` are the lanes up to `i` and then lane `i`. */
  lemma BatchSnoc(sid: string, start: nat, lanes: seq<int>, i: nat, difficulty: int)
    requires i < |lanes|
    ensures var l := lanes[..i + 1];
      && l[..|l| - 1] == lanes[..i] && l[|l| - 1] == lanes[i]
      && BatchData(sid, start, l, difficulty) == BatchData(sid, start, lanes[..i], difficulty) + [NormalData(sid, start + i, lanes[i], difficulty)]
  {
    assert lanes[..i + 1][..i] == lanes[..i];
  }

  /** One more lane adds that lane's monster to the table. */
  lemma AddBatchSnoc(table: map<string, Monster>, sid: string, start: nat, lanes: seq<int>, i: nat, difficulty: int)
    requires i < |lanes|
    ensures var d := NormalData(sid, start + i, lanes[i], difficulty);
      AddBatch(table, sid, start, lanes[..i + 1], difficulty) == AddBatch(table, sid, start, lanes[..i], difficulty)[d.id := FromData(d)]
  {
    assert lanes[..i + 1][..i] == lanes[..i];
  }

  /** Announcing one more monster appends one message. */
  lemma AnnounceSnoc(x: seq<MonsterData>, d: MonsterData)
    ensures Announce(x + [d]) == Announce(x) + [MonsterSpawned(d)]
  {
    assert (x + [d])[..|x|] == x;
  }

  // ---------------------------------------------------------------------
  // Monsters at the base

  /**
    The damages one frame's base contacts deal, in group order: each id of
    `arrived` that is still live hits the base once and leaves the table, so
    a later copy of the same id, or an id that is not live, deals nothing.
   */
  function Contacts(table: map<string, Monster>, arrived: seq<string>): seq<int>
    decreases |arrived|
  {
    if arrived == [] then []
    else if arrived[0] in table then [table[arrived[0]].damage] + Contacts(table - {arrived[0]}, arrived[1..])
    else Contacts(table, arrived[1..])
  }

  /** The ids a sequence lists. */
  function Ids(arrived: seq<string>): set<string> {
    set k | 0 <= k < |arrived| :: arrived[k]
  }

  lemma IdsCons(arrived: seq<string>)
    requires arrived != []
    ensures Ids(arrived) == {arrived[0]} + Ids(arrived[1..])
  {
    forall x | x in Ids(arrived[1..]) ensures x in Ids(arrived) {
      var k :| 0 <= k < |arrived[1..]| && arrived[1..][k] == x;
      assert arrived[k + 1] == x;
    }
  }

  lemma IdsSnoc(arrived: seq<string>, i: nat)
    requires i < |arrived|
    ensures Ids(arrived[..i + 1]) == Ids(arrived[..i]) + {arrived[i]}
  {
    assert arrived[..i + 1] == arrived[..i] + [arrived[i]];
  }

  /** The contacts from position `i` on: the arrival at `i` hits if it is live, and the rest follow. */
  lemma ContactsAt(table: map<string, Monster>, arrived: seq<string>, i: nat)
    requires i < |arrived|
    ensures arrived[i] in table ==>
      Contacts(table, arrived[i..]) == [table[arrived[i]].damage] + Contacts(table - {arrived[i]}, arrived[i + 1..])
    ensures arrived[i] !in table ==> Contacts(table, arrived[i..]) == Contacts(table, arrived[i + 1..])
  {
    assert arrived[i..][0] == arrived[i] && arrived[i..][1..] == arrived[i + 1..];
  }

  /** One hit: the health and the announcements after it, as the rest of the hits see them. */
  lemma HitStep(health: int, d: int, rest: seq<int>, sent: seq<Message>)
    ensures Drain(health, [d] + rest) == Drain(BaseAfterDamage(health, d), rest)
    ensures sent + BaseHits([d] + rest) == (sent + [BaseDamaged(d)]) + BaseHits(rest)
  {
    assert ([d] + rest)[1..] == rest;
  }

  /** Each live monster among the arrivals hits exactly once, whatever repeats `arrived` holds. */
  lemma {:induction false} ContactsOnce(table: map<string, Monster>, arrived: seq<string>)
    ensures |Contacts(table, arrived)| == |table.Keys * Ids(arrived)|
    decreases |arrived|
  {
    if arrived == [] {
      assert table.Keys * Ids(arrived) == {};
    } else {
      var a, rest := arrived[0], arrived[1..];
      IdsCons(arrived);
      if a in table {
        ContactsOnce(table - {a}, rest);
        assert (table - {a}).Keys * Ids(rest) == table.Keys * Ids(arrived) - {a};
      } else {
        ContactsOnce(table, rest);
        assert table.Keys * Ids(rest) == table.Keys * Ids(arrived);
      }
    }
  }

  /** The base health after a sequence of hits, each clamped at zero as it lands. */
  function Drain(health: int, hits: seq<int>): int
    decreases |hits|
  {
    if hits == [] then health else Drain(BaseAfterDamage(health, hits[0]), hits[1..])
  }

  function Sum(hits: seq<int>): int
    decreases |hits|
  {
    if hits == [] then 0 else hits[0] + Sum(hits[1..])
  }

  /** Clamping hit by hit is clamping once: the base loses the total damage, but never goes below zero. */
  lemma {:induction false} DrainTotal(health: int, hits: seq<int>)
    requires health >= 0
    requires forall k | 0 <= k < |hits| :: hits[k] >= 0
    ensures Drain(health, hits) == BaseAfterDamage(health, Sum(hits))
    decreases |hits|
  {
    if hits != [] {
      DrainTotal(BaseAfterDamage(health, hits[0]), hits[1..]);
      SumNonNegative(hits[1..]);
    }
  }

  lemma {:induction false} SumNonNegative(hits: seq<int>)
    requires forall k | 0 <= k < |hits| :: hits[k] >= 0
    ensures Sum(hits) >= 0
    decreases |hits|
  {
    if hits != [] {
      SumNonNegative(hits[1..]);
    }
  }

  /** One base-damaged message per hit, in order. */
  function BaseHits(hits: seq<int>): seq<Message>
    decreases |hits|
  {
    if hits == [] then [] else [BaseDamaged(hits[0])] + BaseHits(hits[1..])
  }


  class GameScene {
    const isHost: bool
    /** This client's socket id, the prefix of every monster id it issues. */
    const socketId: string

    var score: int
    var baseHealth: int
    var lastSpawnTime: int
    var spawnInterval: int
    var difficulty: int
    var monstersKilled: nat
    var monstersPerWave: int
    var monstersThisWave: int
    var bossActive: bool
    var isPaused: bool
    var ammo: int
    var selectedWeapon: Weapon
    var questionsAnswered: nat
    var totalShots: nat
    var nextMonsterId: nat
    var monsters: map<string, Monster>
    var playerStats: map<string, Stats>
    var currentQuestion: Question
    var sent: seq<Message>

    function WaveState(): Wave
      reads this`difficulty, this`spawnInterval, this`monstersPerWave, this`monstersThisWave, this`bossActive
    {
      Wave(difficulty, spawnInterval, monstersPerWave, monstersThisWave, bossActive)
    }

    ghost predicate Valid()
      reads this`baseHealth, this`monsters, this`ammo
    {
      && baseHealth >= 0
      && (forall id | id in monsters :: monsters[id].damage == if monsters[id].isBoss then 3 * MONSTER_DAMAGE else MONSTER_DAMAGE)
      && ammo >= 0
      && (forall id | id in monsters :: monsters[id].id == id)
    }

    /** `create`: the initial state, the stats panel and the first question. */
    constructor (isHost: bool, socketId: string, players: seq<PlayerInfo>, op: int, a: nat, b: nat)
      requires DrawsFit(1, op, a, b)
      ensures Valid()
      ensures this.isHost == isHost && this.socketId == socketId
      ensures WaveState() == InitialWave(|players|)
      ensures score == 0 && baseHealth == BASE_HEALTH && lastSpawnTime == 0 && monstersKilled == 0
      ensures !isPaused && ammo == INITIAL_AMMO && selectedWeapon == Basic
      ensures questionsAnswered == 0 && totalShots == 0 && nextMonsterId == 0
      ensures monsters == map[] && sent == []
      ensures currentQuestion == GenerateQuestion(1, op, a, b)
      ensures forall id :: id in playerStats <==> exists k | 0 <= k < |players| :: players[k].id == id
      ensures forall id | id in playerStats ::
        playerStats[id].score == 0 && playerStats[id].ammo == 0 && playerStats[id].kills == 0
        && exists k | 0 <= k < |players| ::
             && players[k].id == id && players[k].name == playerStats[id].name
             && forall m | k < m < |players| :: players[m].id != id
    {
      this.isHost := isHost;
      this.socketId := socketId;
      score := 0;
      baseHealth := BASE_HEALTH;
      lastSpawnTime := 0;
      spawnInterval := InitialSpawnInterval(|players|);
      difficulty := 1;
      monstersKilled := 0;
      monstersPerWave := 2 * |players|;
      monstersThisWave := 0;
      bossActive := false;
      isPaused := false;
      ammo := INITIAL_AMMO;
      selectedWeapon := Basic;
      questionsAnswered := 0;
      totalShots := 0;
      nextMonsterId := 0;
      monsters := map[];
      sent := [];
      currentQuestion := GenerateQuestion(1, op, a, b);
      var stats: map<string, Stats> := map[];
      for i := 0 to |players|
        invariant stats == InitialStats(players[..i])
      {
        assert players[..i + 1][..i] == players[..i];
        stats := stats[players[i].id := Stats(players[i].name, 0, 0, 0)];
      }
      assert players[..|players|] == players;
      InitialStatsKeys(players);
      InitialStatsRows(players);
      playerStats := stats;
    }

    /** `spawnNormalMonster`: issues the next id, creates the monster and announces it. */
    method SpawnNormalMonster(lane: int) returns (id: string)
      requires Valid()
      modifies this`monsters, this`nextMonsterId, this`sent
      ensures Valid()
      ensures id == NormalId(socketId, old(nextMonsterId))
      ensures nextMonsterId == old(nextMonsterId) + 1
      ensures NotIssuedBefore(id, socketId, old(nextMonsterId))
      ensures monsters == old(monsters)[id := FromData(NormalData(socketId, old(nextMonsterId), lane, difficulty))]
      ensures sent == old(sent) + [MonsterSpawned(NormalData(socketId, old(nextMonsterId), lane, difficulty))]
    {
      var data := NormalData(socketId, nextMonsterId, lane, difficulty);
      id := data.id;
      forall k | 0 <= k < nextMonsterId
        ensures !IssuedAs(id, socketId, k)
      {
        IdsDistinct(socketId, k, nextMonsterId);
        IdsDistinct(socketId, nextMonsterId, k);
      }
      nextMonsterId := nextMonsterId + 1;
      monsters := monsters[id := FromData(data)];
      sent := sent + [MonsterSpawned(data)];
    }

    /** `spawnBoss`: as a normal spawn, with the boss id and stats. */
    method SpawnBoss(playerCount: nat) returns (id: string)
      requires Valid()
      modifies this`monsters, this`nextMonsterId, this`sent
      ensures Valid()
      ensures id == BossId(socketId, old(nextMonsterId))
      ensures nextMonsterId == old(nextMonsterId) + 1
      ensures NotIssuedBefore(id, socketId, old(nextMonsterId))
      ensures monsters == old(monsters)[id := FromData(BossData(socketId, old(nextMonsterId), difficulty, playerCount))]
      ensures sent == old(sent) + [MonsterSpawned(BossData(socketId, old(nextMonsterId), difficulty, playerCount))]
    {
      var data := BossData(socketId, nextMonsterId, difficulty, playerCount);
      id := data.id;
      forall k | 0 <= k < nextMonsterId
        ensures !IssuedAs(id, socketId, k)
      {
        IdsDistinct(socketId, k, nextMonsterId);
        IdsDistinct(socketId, nextMonsterId, k);
      }
      nextMonsterId := nextMonsterId + 1;
      monsters := monsters[id := FromData(data)];
      sent := sent + [MonsterSpawned(data)];
    }

    /**
      The `for` loop of `update`: `count` normal monsters, the i-th in lane
      `lanes[i]`, under consecutive fresh ids.
     */
    method SpawnBatch(count: nat, lanes: seq<int>)
      requires Valid() && |lanes| >= count
      modifies this`monsters, this`nextMonsterId, this`sent
      ensures Valid()
      ensures nextMonsterId == old(nextMonsterId) + count
      ensures monsters == AddBatch(old(monsters), socketId, old(nextMonsterId), lanes[..count], difficulty)
      ensures sent == old(sent) + Announce(BatchData(socketId, old(nextMonsterId), lanes[..count], difficulty))
    {
      ghost var start := nextMonsterId;
      ghost var before := monsters;
      ghost var sentBefore := sent;
      for i := 0 to count
        invariant Valid()
        invariant nextMonsterId == start + i
        invariant monsters == AddBatch(before, socketId, start, lanes[..i], difficulty)
        invariant sent == sentBefore + Announce(BatchData(socketId, start, lanes[..i], difficulty))
      {
        BatchStep(before, socketId, start, lanes, i, difficulty, monsters, sentBefore, sent);
        var _ := SpawnNormalMonster(lanes[i]);
      }
    }

    /** The spawn branch of `update(time)`; `lanes` holds the lanes drawn for a batch. */
    method Update(time: int, playerCount: nat, lanes: seq<int>) returns (action: SpawnAction)
      requires Valid() && |lanes| >= 2 * playerCount
      modifies this`monsters, this`nextMonsterId, this`sent, this`bossActive, this`lastSpawnTime
      ensures Valid()
      ensures action == Decide(isHost, isPaused, time, old(lastSpawnTime), old(WaveState()), playerCount)
      ensures action == Idle ==> unchanged(this)
      ensures action == Boss ==>
        && bossActive && lastSpawnTime == time
        && nextMonsterId == old(nextMonsterId) + 1
        && monsters == old(monsters)[BossId(socketId, old(nextMonsterId)) :=
                                     FromData(BossData(socketId, old(nextMonsterId), difficulty, playerCount))]
        && sent == old(sent) + [MonsterSpawned(BossData(socketId, old(nextMonsterId), difficulty, playerCount))]
      ensures action.Batch? ==>
        && bossActive == old(bossActive) && lastSpawnTime == time
        && nextMonsterId == old(nextMonsterId) + action.count
        && monsters == AddBatch(old(monsters), socketId, old(nextMonsterId), lanes[..action.count], difficulty)
        && sent == old(sent) + Announce(BatchData(socketId, old(nextMonsterId), lanes[..action.count], difficulty))
    {
      action := Decide(isHost, isPaused, time, lastSpawnTime, WaveState(), playerCount);
      match action
      case Idle =>
      case Boss =>
        var _ := SpawnBoss(playerCount);
        bossActive := true;
        lastSpawnTime := time;
      case Batch(count) =>
        SpawnBatch(count, lanes);
        lastSpawnTime := time;
    }

    /** The monster-spawned listener on a peer (`spawnSyncedMonster`): creates or replaces the entry. */
    method MonsterSpawnedReceived(data: MonsterData)
      requires Valid()
      modifies this`monsters
      ensures Valid()
      ensures monsters == old(monsters)[data.id := FromData(data)]
    {
      monsters := monsters[data.id := FromData(data)];
    }

    /** The weapon panel: a weapon is selected only if the player can afford one shot. */
    method SelectWeapon(w: Weapon)
      requires Valid()
      modifies this`selectedWeapon
      ensures Valid()
      ensures selectedWeapon == if ammo >= Cost(w) then w else old(selectedWeapon)
    {
      if ammo >= Cost(w) {
        selectedWeapon := w;
      }
    }

    /**
      `shootMonster`: a click on a live monster while the game runs spends
      exactly the weapon's cost and fires; without enough ammunition nothing
      changes. The projectile carries the weapon selected now.
     */
    method ShootMonster(id: string) returns (fired: Option<Weapon>)
      requires Valid()
      modifies this`ammo, this`totalShots, this`sent
      ensures Valid()
      ensures fired.Some? <==> id in monsters && !isPaused && old(ammo) >= Cost(selectedWeapon)
      ensures fired.Some? ==>
        && fired.value == selectedWeapon
        && ammo == old(ammo) - Cost(selectedWeapon) && totalShots == old(totalShots) + 1
        && sent == old(sent) + [StatsUpdate(score, ammo, monstersKilled)]
      ensures fired.None? ==> ammo == old(ammo) && totalShots == old(totalShots) && sent == old(sent)
    {
      if id !in monsters || isPaused {
        return None;
      }
      var weapon := selectedWeapon;
      if ammo < Cost(weapon) {
        return None;
      }
      ammo := ammo - Cost(weapon);
      totalShots := totalShots + 1;
      sent := sent + [StatsUpdate(score, ammo, monstersKilled)];
      fired := Some(weapon);
    }

    /** `addAmmo`: the stats message goes out only when ammunition actually rose. */
    method AddAmmo(amount: nat)
      requires Valid()
      modifies this`ammo, this`sent
      ensures Valid()
      ensures ammo == AmmoAfterGain(old(ammo), amount)
      ensures sent == if ammo > old(ammo) then old(sent) + [StatsUpdate(score, ammo, monstersKilled)] else old(sent)
    {
      var before := ammo;
      ammo := AmmoAfterGain(ammo, amount);
      if ammo > before {
        sent := sent + [StatsUpdate(score, ammo, monstersKilled)];
      }
    }

    /** `checkAnswer`: a correct answer earns two shots and counts as answered. */
    method CheckAnswer(answer: string) returns (correct: bool)
      requires Valid()
      modifies this`ammo, this`sent, this`questionsAnswered
      ensures Valid()
      ensures correct <==> answer == currentQuestion.answer
      ensures correct ==> ammo == AmmoAfterGain(old(ammo), AMMO_PER_QUESTION) && questionsAnswered == old(questionsAnswered) + 1
      ensures correct ==> sent == old(sent) + (if ammo > old(ammo) then [StatsUpdate(score, ammo, monstersKilled)] else [])
                                             + [StatsUpdate(score, ammo, monstersKilled)]
      ensures !correct ==> ammo == old(ammo) && questionsAnswered == old(questionsAnswered) && sent == old(sent)
    {
      correct := answer == currentQuestion.answer;
      if correct {
        AddAmmo(AMMO_PER_QUESTION);
        questionsAnswered := questionsAnswered + 1;
        sent := sent + [StatsUpdate(score, ammo, monstersKilled)];
      }
    }

    /** `generateNewQuestion` at the current wave. */
    method GenerateNewQuestion(op: int, a: nat, b: nat)
      requires Valid() && difficulty >= 1 && DrawsFit(difficulty, op, a, b)
      modifies this`currentQuestion
      ensures Valid()
      ensures currentQuestion == GenerateQuestion(difficulty, op, a, b)
    {
      currentQuestion := GenerateQuestion(difficulty, op, a, b);
    }

    /**
      `killMonster`: score and kill count grow, the wave advances on a boss
      kill (announced with wave-completed) and otherwise the wave's kill
      counter grows. The monster stays in the table until `DestroyMonster`.
     */
    method KillMonster(id: string, playerCount: nat)
      requires Valid() && id in monsters
      modifies this`score, this`monstersKilled, this`difficulty, this`spawnInterval, this`monstersPerWave,
               this`monstersThisWave, this`bossActive, this`sent
      ensures Valid()
      ensures score == old(score) + ScoreGain(monsters[id].isBoss, monsters[id].difficulty)
      ensures monstersKilled == old(monstersKilled) + 1
      ensures WaveState() == AfterKill(old(WaveState()), monsters[id].isBoss, playerCount)
      ensures sent == old(sent)
        + (if monsters[id].isBoss then [WaveCompleted(difficulty, spawnInterval, monstersPerWave)] else [])
        + [StatsUpdate(score, ammo, monstersKilled), MonsterKilled(id)]
    {
      var m := monsters[id];
      score := score + ScoreGain(m.isBoss, m.difficulty);
      monstersKilled := monstersKilled + 1;
      if m.isBoss {
        bossActive := false;
        monstersThisWave := 0;
        difficulty := difficulty + 1;
        spawnInterval := if spawnInterval - 50 > 300 then spawnInterval - 50 else 300;
        monstersPerWave := WaveSize(difficulty, playerCount);
        sent := sent + [WaveCompleted(difficulty, spawnInterval, monstersPerWave)];
      } else {
        monstersThisWave := monstersThisWave + 1;
      }
      sent := sent + [StatsUpdate(score, ammo, monstersKilled), MonsterKilled(id)];
    }

    /**
      `applyDamage` when a projectile lands: health drops by exactly the
      weapon's damage and the monster is killed iff health reaches zero or
      below. A monster already destroyed is ignored; one killed but not yet
      destroyed can be killed again.
     */
    method ApplyDamage(id: string, weapon: Weapon, playerCount: nat) returns (killed: bool)
      requires Valid()
      modifies this`monsters, this`score, this`monstersKilled, this`difficulty, this`spawnInterval,
               this`monstersPerWave, this`monstersThisWave, this`bossActive, this`sent
      ensures Valid()
      ensures id !in old(monsters) ==> unchanged(this) && !killed
      ensures id in old(monsters) ==>
        && monsters == old(monsters)[id := old(monsters)[id].(health := old(monsters)[id].health - Damage(weapon))]
        && (killed <==> monsters[id].health <= 0)
        && |sent| > |old(sent)| && sent[|old(sent)|] == MonsterDamaged(id, monsters[id].health, selectedWeapon)
      ensures id in old(monsters) && !killed ==>
        && sent == old(sent) + [MonsterDamaged(id, monsters[id].health, selectedWeapon)]
        && score == old(score) && WaveState() == old(WaveState())
      ensures killed ==>
        && score == old(score) + ScoreGain(monsters[id].isBoss, monsters[id].difficulty)
        && monstersKilled == old(monstersKilled) + 1
        && WaveState() == AfterKill(old(WaveState()), monsters[id].isBoss, playerCount)
        && sent == old(sent) + [MonsterDamaged(id, monsters[id].health, selectedWeapon)]
             + (if monsters[id].isBoss then [WaveCompleted(difficulty, spawnInterval, monstersPerWave)] else [])
             + [StatsUpdate(score, ammo, monstersKilled), MonsterKilled(id)]
    {
      if id !in monsters {
        return false;
      }
      var m := monsters[id];
      var health := m.health - Damage(weapon);
      monsters := monsters[id := m.(health := health)];
      sent := sent + [MonsterDamaged(id, health, selectedWeapon)];
      killed := health <= 0;
      if killed {
        KillMonster(id, playerCount);
      }
    }

    /** `syncMonsterDamage`: a peer's damage report overwrites health; unknown ids are ignored. */
    method SyncMonsterDamage(id: string, newHealth: int) returns (scheduleDestroy: bool)
      requires Valid()
      modifies this`monsters
      ensures Valid()
      ensures id !in old(monsters) ==> monsters == old(monsters) && !scheduleDestroy
      ensures id in old(monsters) ==> monsters == old(monsters)[id := old(monsters)[id].(health := newHealth)]
      ensures scheduleDestroy <==> id in old(monsters) && newHealth <= 0
    {
      scheduleDestroy := false;
      if id in monsters {
        monsters := monsters[id := monsters[id].(health := newHealth)];
        scheduleDestroy := newHealth <= 0;
      }
    }

    /**
      `syncMonsterKill`: a peer's kill changes no score or counter here; it
      only schedules the destruction of a monster that is still live.
     */
    method SyncMonsterKill(id: string) returns (scheduleDestroy: bool)
      ensures scheduleDestroy <==> id in monsters
    {
      scheduleDestroy := id in monsters;
    }

    /** `destroyMonster`: the id leaves the table. */
    method DestroyMonster(id: string)
      requires Valid()
      modifies this`monsters
      ensures Valid()
      ensures monsters == old(monsters) - {id}
    {
      monsters := monsters - {id};
    }

    /** The sync-all-monsters listener: hosts ignore it, peers merge it. */
    method ApplySnapshot(data: seq<MonsterData>)
      requires Valid()
      modifies this`monsters
      ensures Valid()
      ensures monsters == if isHost then old(monsters) else Merge(old(monsters), data)
    {
      if isHost {
        return;
      }
      ghost var start := monsters;
      var i := 0;
      while i < |data|
        invariant 0 <= i <= |data|
        invariant Valid()
        invariant monsters == Merge(start, data[..i])
      {
        assert data[..i + 1][..i] == data[..i];
        var d := data[i];
        if d.id !in monsters {
          monsters := monsters[d.id := FromData(d)];
        }
        i := i + 1;
      }
      assert data[..i] == data;
    }

    /** The wave-completed listener: hosts ignore it, peers adopt the new wave. */
    method WaveCompletedReceived(newWave: int, newSpawnInterval: int, newMonstersPerWave: int)
      requires Valid()
      modifies this`difficulty, this`spawnInterval, this`monstersPerWave, this`monstersThisWave, this`bossActive
      ensures Valid()
      ensures isHost ==> WaveState() == old(WaveState())
      ensures !isHost ==> WaveState() == Wave(newWave, newSpawnInterval, newMonstersPerWave, 0, false)
    {
      if isHost {
        return;
      }
      bossActive := false;
      monstersThisWave := 0;
      difficulty := newWave;
      spawnInterval := newSpawnInterval;
      monstersPerWave := newMonstersPerWave;
    }

    /** `damageBase`: clamp at zero, announce on the host, game over at zero. */
    method DamageBase(amount: int)
      requires Valid()
      modifies this`baseHealth, this`sent, this`isPaused
      ensures Valid()
      ensures baseHealth == BaseAfterDamage(old(baseHealth), amount)
      ensures sent == if isHost then old(sent) + [BaseDamaged(amount)] else old(sent)
      ensures isPaused == (old(isPaused) || baseHealth == 0)
    {
      baseHealth := BaseAfterDamage(baseHealth, amount);
      if isHost {
        sent := sent + [BaseDamaged(amount)];
      }
      if baseHealth <= 0 {
        isPaused := true;
      }
    }

    /** `syncBaseDamage`: the peer side of a base hit, without re-announcing it. */
    method SyncBaseDamage(amount: int)
      requires Valid()
      modifies this`baseHealth, this`isPaused
      ensures Valid()
      ensures baseHealth == BaseAfterDamage(old(baseHealth), amount)
      ensures isPaused == (old(isPaused) || baseHealth == 0)
    {
      baseHealth := BaseAfterDamage(baseHealth, amount);
      if baseHealth <= 0 {
        isPaused := true;
      }
    }

    /** One live monster at the base on the host: its damage hits the base and it is destroyed. */
    method ReachBase(id: string)
      requires Valid() && isHost && id in monsters
      modifies this`baseHealth, this`sent, this`isPaused, this`monsters
      ensures Valid()
      ensures old(monsters)[id].damage > 0
      ensures baseHealth == BaseAfterDamage(old(baseHealth), old(monsters)[id].damage)
      ensures monsters == old(monsters) - {id}
      ensures sent == old(sent) + [BaseDamaged(old(monsters)[id].damage)]
      ensures isPaused == (old(isPaused) || baseHealth == 0)
    {
      DamageBase(monsters[id].damage);
      DestroyMonster(id);
    }

    /**
      The base-contact half of one host `update` frame. The pause flag is read
      once, at the top of the frame; then each of `arrived` (the group's
      members past the base line, in group order) that is still live damages
      the base and is destroyed, even after an earlier hit of the same frame
      has ended the game.
     */
    method MonstersReachBase(arrived: seq<string>)
      requires Valid()
      modifies this`baseHealth, this`sent, this`isPaused, this`monsters
      ensures Valid()
      ensures !isHost || old(isPaused) ==> unchanged(this)
      ensures isHost && !old(isPaused) ==>
        var hits := Contacts(old(monsters), arrived);
        && baseHealth == Drain(old(baseHealth), hits)
        && monsters == old(monsters) - Ids(arrived)
        && sent == old(sent) + BaseHits(hits)
        && isPaused == (hits != [] && baseHealth == 0)
    {
      if !isHost || isPaused {
        return;
      }
      ghost var start, h0, s0 := monsters, baseHealth, sent;
      ghost var applied := 0;
      var i := 0;
      while i < |arrived|
        invariant 0 <= i <= |arrived|
        invariant Valid()
        invariant monsters == start - Ids(arrived[..i])
        invariant Drain(baseHealth, Contacts(monsters, arrived[i..])) == Drain(h0, Contacts(start, arrived))
        invariant sent + BaseHits(Contacts(monsters, arrived[i..])) == s0 + BaseHits(Contacts(start, arrived))
        invariant |Contacts(start, arrived)| == applied + |Contacts(monsters, arrived[i..])|
        invariant isPaused == (applied > 0 && baseHealth == 0)
      {
        var id := arrived[i];
        IdsSnoc(arrived, i);
        ContactsAt(monsters, arrived, i);
        if id in monsters {
          HitStep(baseHealth, monsters[id].damage, Contacts(monsters - {id}, arrived[i + 1..]), sent);
          ReachBase(id);
          applied := applied + 1;
        }
        i := i + 1;
      }
    }

    /** `updatePlayerStats`: known players' rows are overwritten, unknown ones ignored. */
    method UpdatePlayerStats(playerId: string, newScore: int, newAmmo: int, kills: int)
      requires Valid()
      modifies this`playerStats
      ensures Valid()
      ensures playerId !in old(playerStats) ==> playerStats == old(playerStats)
      ensures playerId in old(playerStats) ==>
        playerStats == old(playerStats)[playerId := Stats(old(playerStats)[playerId].name, newScore, newAmmo, kills)]
    {
      if playerId in playerStats {
        playerStats := playerStats[playerId := playerStats[playerId].(score := newScore, ammo := newAmmo, kills := kills)];
      }
    }

    /** The host's periodic sync: a full snapshot goes out when `now % 2000 < 100`. */
    method SyncTick(now: nat, order: seq<string>)
      requires Valid() && isHost
      requires forall k | 0 <= k < |order| :: order[k] in monsters
      requires forall id | id in monsters :: id in order
      requires forall i, j | 0 <= i < j < |order| :: order[i] != order[j]
      modifies this`sent
      ensures Valid()
      ensures sent == if now % 2000 < 100 then old(sent) + [SyncAllMonsters(Snapshot(monsters, order))] else old(sent)
      ensures now % 2000 < 100 ==>
        var peer := Merge(map[], sent[|sent| - 1].monsters);
        && peer.Keys == monsters.Keys
        && forall id | id in monsters :: peer[id] == monsters[id].(maxHealth := monsters[id].health)
    {
      if now % 2000 < 100 {
        sent := sent + [SyncAllMonsters(Snapshot(monsters, order))];
        SnapshotRecovers(monsters, order);
      }
    }
  }
}
