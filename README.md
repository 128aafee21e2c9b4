# QuizDefence, modelled in Dafny

QuizDefence is a browser game for a classroom. Players answer arithmetic
and decimal questions to earn ammunition or points. A small Socket.IO
server keeps the rooms. This project models four parts of it:

- **Rooms** (`server.cjs`): the lobby server. It creates rooms under a
  random four-digit code, lets players join them, marks players ready,
  lets the host start the game, and hands the host role on when the host
  disconnects. It is a class `Server` whose maps of rooms and
  socket-to-room links change in place. Every emit is recorded in `sent`.
  The invariant proved is that every stored room has players, exactly one
  host entry, and that entry is `room.host`. A started game stays started.
- **Defence** (`src/scenes/GameScene.js`): the tower-defence scene.
  Questions earn ammunition (capped at 999, starting at 9999). Weapons
  cost and deal fixed amounts. The host spawns waves of monsters under
  ids `<socket>-<n>` and a boss, `BOSS-<socket>-<n>`, after each wave. Kills advance the
  wave, and monsters that reach the base in a frame damage it. Peers merge the host's
  periodic snapshot. `GameScene` is a class whose fields change in place.
  The invariant proved is that the monster table is keyed by id with the
  right damage per kind.
- **Hacker** (`src/scenes/HackerScene.js`): the "hacker" mode. Players
  pick passwords during a 30-second countdown, answer questions for 100
  points each, and roll a reward. The reward is a next question, a hack
  that steals 30% of a victim's score, a 2–4× multiplier, a crypto miner
  (one point per question answered by anyone, for 10 questions) or a
  shield. It also covers the leaderboard, the score display (`formatScore`)
  and the game timer. `HackerScene` is a class. The pure parts are
  functions: reward tables, target choice, score formatting, the steal
  and the leaderboard merge.
- **Questions** (`src/questionTypes.js`): the question generators. Each
  one is a function of the numbers its random draws produced. The answer
  strings are proved to denote the right value; decimal answers use the
  Norwegian decimal comma.

`Text` holds the shared pieces: `Option`, the `Question` record, and
JavaScript's `toString()` and `padStart` on integers, with their decimal
meaning proved.

Where the code and its description disagree, the model follows the code:

- `create-room` does not retry when the random code is already in use. A
  new room silently replaces the old one (server.cjs:37-60). The lemma
  about a started game staying started therefore holds for `CreateRoom`
  only when the code was free.
- A peer merges the host's snapshot by adding every id it does not have.
  A monster the peer has already destroyed comes back
  (GameScene.js:195-208).
- The host ignores `wave-completed`, and peers adopt it
  (GameScene.js:210-222).
- A non-host's `gameStartTime` stays `null`. Its reward roll therefore
  always uses the after-the-first-minute table, and it never gets the
  "next question" reward (HackerScene.js:736-766). This is the
  `RewardTables` lemma.
- `countTenths` / `countHundredths` answer with the last digit written,
  not with a count of tenths (questionTypes.js:182-206).
- The starting ammunition is 9999, above the cap of 999, so the first
  correct answer lowers it to 999 (`FirstGainLowersAmmo`).

## Model

| member | source | states |
|---|---|---|
| Rooms.GenerateRoomCode | server.cjs:28-30 | the room code is four decimal digits denoting a number from 1000 to 9999 |
| Rooms.Without | server.cjs:276-302 | filtering out a socket keeps exactly the entries of other sockets and never grows the list; the first remaining entry is the earliest entry of another socket |
| Rooms.WithoutAppend | server.cjs:276-302 | filtering distributes over a split of the list, so the remaining entries keep their order |
| Rooms.FindPlayer | server.cjs:95-106 | finds the first entry of the socket, or reports that it has none |
| Rooms.NewRoomWellFormed | server.cjs:37-60 | a new room has the creator as its only entry, that entry is the host, and the registry invariant holds |
| Rooms.JoinKeepsInvariant | server.cjs:63-93 | a join appends exactly one non-host, not-ready entry, keeps all earlier entries, the host and the started flag, and keeps the invariant |
| Rooms.ReadyKeepsInvariant | server.cjs:95-106 | ready fails iff the socket has no entry; otherwise exactly one of its entries becomes ready, nothing else changes, and the invariant holds |
| Rooms.DisconnectKeepsInvariant | server.cjs:276-302 | the room is deleted iff its host leaves it empty; otherwise all the socket's entries are gone, a surviving host is kept, a departed host is replaced by the earliest remaining entry, and the invariant holds |
| Rooms.HostCountAppend | server.cjs:77-83 | appending an entry adds one host iff it is a host entry |
| Rooms.HostCountWithoutOther | server.cjs:283-284 | removing a non-host socket keeps the number of host entries |
| Rooms.HostCountWithoutHost | server.cjs:283-290 | removing the host's socket leaves no host entry |
| Rooms.HostCountUpdate | server.cjs:99-102 | replacing an entry by one with the same host flag keeps the number of host entries |
| Rooms.HostCountZero | server.cjs:286-290 | no host entry means every entry's flag is false |
| Rooms.HostCountNone | server.cjs:286-290 | all flags false means a host count of zero |
| Rooms.Server.constructor | server.cjs:24-25 | the server starts with no rooms, no socket links and nothing sent |
| Rooms.Server.CreateRoom | server.cjs:37-60 | stores the new room under the generated code, links the creator's socket, emits room-created, and keeps the invariant |
| Rooms.Server.JoinRoom | server.cjs:63-93 | an unknown code and a started game are answered with their error messages and change nothing; otherwise the joined room is stored, the socket linked and room-updated emitted; started games stay started |
| Rooms.Server.PlayerReady | server.cjs:95-106 | marks the caller ready and emits room-updated, or changes nothing when the caller has no room or no entry |
| Rooms.Server.StartGame | server.cjs:109-118 | only the room's host starts it and game-starting is emitted; anyone else changes nothing |
| Rooms.Server.Disconnect | server.cjs:276-302 | the room becomes the disconnect result or is deleted, room-updated is emitted only when it survives, the invariant is kept, and started games stay started |
| Defence.GenerateQuestion | src/scenes/GameScene.js:25-53 | the question reads "a + b", "a - b" or "a × b" for the drawn operation and the answer is the decimal rendering of that operation's result; wave 1 asks only additions |
| Defence.AmmoAfterGain | src/scenes/GameScene.js:419-435 | ammunition after a gain never exceeds 999; it is the sum when that fits, and otherwise 999 |
| Defence.FirstGainLowersAmmo | src/scenes/GameScene.js:95 | the first correct answer lowers the starting 9999 to the cap of 999 |
| Defence.BaseAfterDamage | src/scenes/GameScene.js:1039-1055 | a hit lowers base health by exactly the amount while the result stays positive, and otherwise leaves zero |
| Defence.FromData | src/scenes/GameScene.js:650-705 | a created monster keeps the id and health it was given, starts at full health, and hits for 10, or 30 as a boss |
| Defence.SuffixInjective | src/scenes/GameScene.js:541-542 | two ids with the same prefix and different counters differ |
| Defence.NormalIsNotBoss | src/scenes/GameScene.js:576-577 | a normal monster id never equals a boss id |
| Defence.IdsDistinct | src/scenes/GameScene.js:532-608 | ids issued by one client for different counters never coincide, whether normal or boss |
| Defence.IssuedIdsDistinct | src/scenes/GameScene.js:532-608 | every id in a run of issued ids is different from every other |
| Defence.MergeKeys | src/scenes/GameScene.js:195-208 | after a merge the ids are the peer's own ids together with the snapshot's ids |
| Defence.MergeSpec | src/scenes/GameScene.js:195-208 | merging a snapshot leaves known monsters untouched and takes each new monster from the first snapshot entry with its id |
| Defence.Snapshot | src/scenes/GameScene.js:147-167 | the snapshot lists one entry per id in the given order, each describing that monster |
| Defence.SnapshotKeys | src/scenes/GameScene.js:147-167 | merging the host's full snapshot into an empty table yields exactly the host's ids |
| Defence.SnapshotRecoversOne | src/scenes/GameScene.js:147-167 | each of the host's monsters comes back from the snapshot with its fields, its maximum health set to its current health |
| Defence.SnapshotRecovers | src/scenes/GameScene.js:147-167 | a peer with an empty table that merges the host's full snapshot gets the host's monsters back, except that the maximum health becomes the current health |
| Defence.InitialSpawnInterval | src/scenes/GameScene.js:87 | the spawn interval is at least 300 ms, and 1200 - 150 per player up to six players |
| Defence.WaveSize | src/scenes/GameScene.js:904-928 | a wave holds 2 + wave/3 monsters per player, at least two per player |
| Defence.AfterKill | src/scenes/GameScene.js:904-928 | a normal kill counts one more kill in the wave; a boss kill starts the next wave with no kills and no boss, sets the interval to max(300, old − 50) ms and the wave size to 2n + ⌊(wave + 1)/3⌋·n for n players |
| Defence.Decide | src/scenes/GameScene.js:493-509 | only an unpaused host spawns, once the interval has passed and no boss is out; it spawns the boss once the wave's kills reach its size, and otherwise two monsters per player |
| Defence.IntervalSchedule | src/scenes/GameScene.js:87 | after k waves the interval is max(300, 1200 - 150·players - 50·k) |
| Defence.WaveCycle | src/scenes/GameScene.js:493-509 | after a boss kill, due spawns bring normal batches until the wave's kills reach its size, and then exactly one boss |
| Defence.BatchData | src/scenes/GameScene.js:500-507 | a batch has one monster per lane drawn |
| Defence.AddBatchSpec | src/scenes/GameScene.js:500-507 | a batch adds exactly the next consecutive normal ids, each with its lane, and leaves every other monster as it was |
| Defence.AddBatchKeys | src/scenes/GameScene.js:500-507 | the ids after a batch are the old ids plus the batch's consecutive normal ids |
| Defence.AddBatchNew | src/scenes/GameScene.js:500-507 | the monster under the batch's k-th id is the normal monster drawn for lane k |
| Defence.AddBatchOthers | src/scenes/GameScene.js:500-507 | every id outside the batch keeps its monster |
| Defence.Announce | src/scenes/GameScene.js:563-564 | one monster-spawned message per monster created |
| Defence.BatchStep | src/scenes/GameScene.js:500-507 | given the table and messages after the first i lanes, adding lane i's monster and its message gives the table and messages after i + 1 lanes |
| Defence.NamedByLastSnoc | src/scenes/GameScene.js:224-232 | a later listing of another id keeps the last listing of an id in place |
| Defence.InitialStatsKeys | src/scenes/GameScene.js:224-232 | the stats panel has a row for exactly the listed ids |
| Defence.InitialStatsRows | src/scenes/GameScene.js:224-232 | every row starts at zero score, ammunition and kills, named after the last listing of its id |
| Defence.GameScene.constructor | src/scenes/GameScene.js:82-99 | the initial state: score 0, full base, 9999 ammunition, the basic weapon, wave 1, no monsters, one zeroed stats row per listed id named after its last listing, and a wave-1 question |
| Defence.GameScene.SpawnNormalMonster | src/scenes/GameScene.js:532-566 | issues the next id, which differs from every id issued before, stores the monster and announces it |
| Defence.GameScene.SpawnBoss | src/scenes/GameScene.js:567-608 | as a normal spawn, with the boss id and the boss stats |
| Defence.GameScene.SpawnBatch | src/scenes/GameScene.js:500-507 | the loop spawns the batch: consecutive fresh ids, one per lane, each announced in order |
| Defence.GameScene.Update | src/scenes/GameScene.js:489-509 | the spawn branch does what `Decide` says: nothing; the boss, stored and announced; or a batch, stored and announced in order; and records the spawn time |
| Defence.GameScene.MonsterSpawnedReceived | src/scenes/GameScene.js:645-649 | a peer stores the announced monster under its id |
| Defence.GameScene.SelectWeapon | src/scenes/GameScene.js:354-379 | a weapon is selected only if one shot of it is affordable |
| Defence.GameScene.ShootMonster | src/scenes/GameScene.js:706-731 | a shot is fired iff the monster is live, the game runs and the weapon is affordable; it costs exactly the weapon's price; otherwise nothing changes |
| Defence.GameScene.AddAmmo | src/scenes/GameScene.js:419-435 | ammunition follows the capped gain, and stats are sent only when it rose |
| Defence.GameScene.CheckAnswer | src/scenes/GameScene.js:389-418 | correct iff the answer matches; then two shots are gained, the answer is counted, and the messages are a stats update when the ammunition rose followed by one more stats update; a wrong answer changes nothing |
| Defence.GameScene.GenerateNewQuestion | src/scenes/GameScene.js:381-388 | the question is generated at the current wave |
| Defence.GameScene.KillMonster | src/scenes/GameScene.js:893-961 | the score grows by the kill's points, kills by one, the wave follows `AfterKill`, and a boss kill announces wave-completed before the stats and the kill |
| Defence.GameScene.ApplyDamage | src/scenes/GameScene.js:804-871 | health drops by exactly the weapon's damage and the damage is announced; the monster is killed iff health reaches zero, and then the messages are the damage, wave-completed for a boss, the stats and the kill, in that order; an unknown id changes nothing |
| Defence.GameScene.SyncMonsterDamage | src/scenes/GameScene.js:872-892 | a peer's report overwrites a known monster's health and schedules destruction iff it is at or below zero |
| Defence.GameScene.SyncMonsterKill | src/scenes/GameScene.js:962-977 | a peer's kill only schedules destruction of a live monster |
| Defence.GameScene.DestroyMonster | src/scenes/GameScene.js:1026-1038 | the id leaves the table and nothing else changes |
| Defence.GameScene.ApplySnapshot | src/scenes/GameScene.js:195-208 | a host ignores the snapshot; a peer's loop merges it |
| Defence.GameScene.WaveCompletedReceived | src/scenes/GameScene.js:210-222 | a host keeps its wave; a peer adopts the announced wave with no kills and no boss |
| Defence.GameScene.DamageBase | src/scenes/GameScene.js:1039-1055 | health follows the clamped hit, the host announces it, and the game pauses exactly when health reaches zero |
| Defence.GameScene.SyncBaseDamage | src/scenes/GameScene.js:1056-1065 | a peer applies the same clamped hit without announcing it |
| Defence.GameScene.ReachBase | src/scenes/GameScene.js:524-527 | a live monster at the base hits it with its positive damage through the clamped hit, is removed, the hit is announced, and the game pauses when health reaches zero |
| Defence.GameScene.MonstersReachBase | src/scenes/GameScene.js:489-531 | the pause flag is read once per frame: a paused frame or a peer changes nothing; otherwise every live monster at the base, in group order, hits the base once, even after the game ended mid-frame; all of them leave, each hit is announced, and the game is paused iff some hit landed and health is zero |
| Defence.ContactsOnce | src/scenes/GameScene.js:512-529 | a frame makes exactly one hit per distinct live monster at the base |
| Defence.DrainTotal | src/scenes/GameScene.js:1039-1055 | clamping after each hit is clamping once: the base loses the hits' total, but never goes below zero |
| Defence.GameScene.UpdatePlayerStats | src/scenes/GameScene.js:459-466 | a known player's row takes the new numbers and keeps its name; unknown players are ignored |
| Defence.GameScene.SyncTick | src/scenes/GameScene.js:147-167 | a full snapshot goes out exactly in the first 100 ms of every 2 s, and a peer with an empty table that merges it gets exactly the host's monsters, each with its current health as its maximum |
| Hacker.FormatScore | src/scenes/HackerScene.js:5-17 | below 10000 the score is written in full; 100000 to 999999 is written as thousands with a "k"; whole millions with an "M"; the other ranges use fractional formats that are not modelled |
| Hacker.NatToStringLengthBound | src/scenes/HackerScene.js:5-17 | a number below 10^k renders to at most k characters |
| Hacker.CountdownRemaining | src/scenes/HackerScene.js:512-550 | the password countdown is between 0 and 30 seconds, and reaches zero exactly at 30000 ms |
| Hacker.CountdownNonIncreasing | src/scenes/HackerScene.js:512-550 | the countdown never goes up as time passes |
| Hacker.CountdownDuringSecond | src/scenes/HackerScene.js:512-550 | during the s-th second the countdown shows 30 - s |
| Hacker.TimerRemaining | src/scenes/HackerScene.js:596-619 | the remaining game time is never negative, is zero exactly when the duration has elapsed, and otherwise is what is left |
| Hacker.MinutesAndSeconds | src/scenes/HackerScene.js:607-609 | whole minutes times 60 plus the leftover seconds, which are below 60, give the whole seconds remaining |
| Hacker.TimerTextSpec | src/scenes/HackerScene.js:607-609 | the timer reads minutes ":" two-digit seconds, the seconds are below 60, and minutes·60 + seconds is the whole seconds remaining |
| Hacker.RewardTables | src/scenes/HackerScene.js:736-766 | a hack is only rolled after the first minute, a next question only during it, and a client without a start time never rolls a next question after 60 s |
| Hacker.MultiplierFor | src/scenes/HackerScene.js:907-931 | the multiplier is 2, 3 or 4: 2 iff the roll is below 60, 4 iff it is 90 or more |
| Hacker.Steal | src/scenes/HackerScene.js:864-905 | the stolen amount is 30% of the score rounded down, and never more than the score |
| Hacker.StealConserves | src/scenes/HackerScene.js:864-905 | a hack moves points from the victim to the hacker without creating any, and the victim keeps a non-negative score |
| Hacker.FirstMember | src/scenes/HackerScene.js:278-293 | finds the first listed player with the id, or reports that there is none |
| Hacker.FirstMemberSnoc | src/scenes/HackerScene.js:278-293 | appending a player changes the first match only when there was none |
| Hacker.AddMembersKeys | src/scenes/HackerScene.js:278-293 | the leaderboard gains exactly the listed ids it did not have and keeps every existing entry |
| Hacker.AddMembersOrder | src/scenes/HackerScene.js:278-293 | the ids appended to the leaderboard order come in the order of their first listing |
| Hacker.AddMembersValues | src/scenes/HackerScene.js:278-293 | a new entry is the fresh entry of the first listed player with that id |
| Hacker.Eligible | src/scenes/HackerScene.js:775-782 | the candidates are exactly the other non-host players, with their scores |
| Hacker.InsertDescPerm | src/scenes/HackerScene.js:783 | inserting adds exactly the element |
| Hacker.InsertDescFrom | src/scenes/HackerScene.js:783 | every element after an insertion was inserted or already there |
| Hacker.InsertDescSorted | src/scenes/HackerScene.js:783 | inserting into a list sorted by descending score keeps it sorted |
| Hacker.SortDescSorted | src/scenes/HackerScene.js:783 | the sort's output is sorted by descending score |
| Hacker.SortDescPerm | src/scenes/HackerScene.js:783 | the sort's output is a permutation of its input |
| Hacker.SortDescSpec | src/scenes/HackerScene.js:783 | the sort is a permutation sorted by descending score, and stable: players with equal scores keep their order |
| Hacker.WithScoreAppend | src/scenes/HackerScene.js:783 | the players with a given score in a joined list are those of the first part and then those of the second |
| Hacker.InsertDescStable | src/scenes/HackerScene.js:783 | inserting into a sorted list puts the element after every element with the same score |
| Hacker.SortDescStable | src/scenes/HackerScene.js:783 | the players with any given score appear in the sort's output in their input order |
| Hacker.HackCandidatesSpec | src/scenes/HackerScene.js:775-791 | min(5, number eligible) candidates, so none exactly when no other non-host player exists; sorted by descending score; each an eligible player with its score |
| Hacker.SortedPrefixTop | src/scenes/HackerScene.js:783-784 | an element of a descending list is in its first n or scores no more than each of them |
| Hacker.HackCandidatesTop | src/scenes/HackerScene.js:775-784 | an eligible player left off the list scores no more than everyone on it |
| Hacker.HackCandidatesTies | src/scenes/HackerScene.js:775-784 | among eligible players with equal scores, the candidates are the first ones in leaderboard order |
| Hacker.ChooseTarget | src/scenes/HackerScene.js:793-809 | the chosen index is on the list: the leader below a roll of 40, the second below 65, the third below 85, the fourth below 95 and the fifth from 95 on, each when the list reaches that far; otherwise the fallback is the leader |
| Hacker.ApplyHackSpec | src/scenes/HackerScene.js:437-467 | a hack event sets the hacker's and the victim's scores and changes nothing else |
| Hacker.SameKeysOrderMatches | src/scenes/HackerScene.js:437-467 | replacing leaderboard entries without adding or removing players keeps the insertion order in step with the entries |
| Hacker.HackConserves | src/scenes/HackerScene.js:1082-1114 | the hacker's and the victim's scores add up to what they did before the hack |
| Hacker.LoadLikeAddMembers | src/scenes/HackerScene.js:153-162 | loading the player list gives the same ids in the same order as adding them to an empty leaderboard |
| Hacker.LastListingSnoc | src/scenes/HackerScene.js:153-162 | a later player with another id does not change which listing of an id is last |
| Hacker.LoadValues | src/scenes/HackerScene.js:153-162 | each loaded entry is the fresh entry of the last player listed with that id |
| Hacker.LoadSpec | src/scenes/HackerScene.js:153-162 | the loaded leaderboard holds exactly the listed ids, once each, in the order of first listing, with the entry of the last listing |
| Hacker.HackerScene.constructor | src/scenes/HackerScene.js:126-175 | the initial state: score 0, no timer, no shield, no miner, the multiplayer manager's set of players with a password as it stands; the leaderboard holds each listed player once, in the order of first listing, with the entry of its last listing |
| Hacker.HackerScene.RoomUpdated | src/scenes/HackerScene.js:278-293 | the leaderboard becomes the merge of the new player list, with the new players appended in the order of their first listing |
| Hacker.HackerScene.PasswordSelected | src/scenes/HackerScene.js:311-352 | records the choice and creates the player's entry if needed; on the host, once every non-host player has chosen and the timer had not started, the timer starts at the current time and game-timer-started is sent, and otherwise nothing more changes; a question is asked iff the player is oneself, not the host, the game runs and the timer has started |
| Hacker.HackerScene.CheckAllPasswords | src/scenes/HackerScene.js:552-584 | the timer starts iff every non-host player has chosen and it had not started |
| Hacker.HackerScene.StartTimerNow | src/scenes/HackerScene.js:586-594 | the timer starts once; a second start keeps the first start time |
| Hacker.HackerScene.StartGame | src/scenes/HackerScene.js:480-510 | the game runs for the chosen minutes, and the host starts the 30-second countdown and announces it |
| Hacker.HackerScene.PasswordCountdownTick | src/scenes/HackerScene.js:512-550 | each new second is announced; at zero the timer starts at the current time unless it already runs, game-timer-started is announced and the countdown stops |
| Hacker.HackerScene.TimerTick | src/scenes/HackerScene.js:596-619 | the game ends when the time is up; otherwise the remaining time is shown |
| Hacker.HackerScene.GameTimerStartedReceived | src/scenes/HackerScene.js:381-419 | a non-host starts its timer and gets a question iff it has chosen a password |
| Hacker.HackerScene.LateJoinerConnected | src/scenes/HackerScene.js:296-308 | the host tells a late joiner the game is on, once the timer runs |
| Hacker.HackerScene.GenerateNewQuestion | src/scenes/HackerScene.js:621-669 | a question is set only while the game runs, for the host or a player with a password |
| Hacker.HackerScene.CheckAnswer | src/scenes/HackerScene.js:695-734 | correct iff the answer matches; then 100 points, a score update, a miner tick, and one fewer miner question left; otherwise nothing changes |
| Hacker.HackerScene.RollReward | src/scenes/HackerScene.js:736-766 | the reward follows the table for the time since the start |
| Hacker.HackerScene.CryptoMinerTick | src/scenes/HackerScene.js:470-477 | while the miner runs each tick gives one point and a score update; otherwise nothing |
| Hacker.HackerScene.TriggerMultiplier | src/scenes/HackerScene.js:907-931 | the score is multiplied by 2, 3 or 4 and announced |
| Hacker.HackerScene.TriggerCryptoMiner | src/scenes/HackerScene.js:933-944 | the miner runs for the next 10 questions |
| Hacker.HackerScene.TriggerShield | src/scenes/HackerScene.js:946-970 | the player's shield goes up, on the leaderboard too, and is announced |
| Hacker.HackerScene.ShowHackModal | src/scenes/HackerScene.js:773-862 | no target iff no candidate; otherwise the chosen candidate, another non-host player, and its password when it has one |
| Hacker.HackerScene.AttemptHack | src/scenes/HackerScene.js:864-905 | a correct guess on an unshielded target claims 30% of its score; a shield costs the shield; a wrong guess does nothing |
| Hacker.HackerScene.HackEventReceived | src/scenes/HackerScene.js:437-467 | the event is logged, the leaderboard follows it, and one's own score follows it when one is a party |
| Hacker.HackerScene.PlayerScoreUpdate | src/scenes/HackerScene.js:422-434 | a known player's score is replaced and a non-host adopts its own; unknown players are ignored |
| Hacker.HackerScene.UpdatePlayerScore | src/scenes/HackerScene.js:1060-1080 | a known player's score is replaced; an unknown one is added at the end, named "Unknown" when the name is missing |
| Hacker.HackerScene.RemoveShield | src/scenes/HackerScene.js:1116-1128 | the player's shield drops, and one's own when it is us |
| Hacker.HackerScene.ActivateShield | src/scenes/HackerScene.js:1130-1136 | the player's shield goes up on the leaderboard |
| Hacker.HackerScene.EndGame | src/scenes/HackerScene.js:1178-1182 | the game stops running |
| Questions.DecimalTextValue | src/questionTypes.js:151-159 | "whole,digits" denotes whole·10^k + digits with k decimals |
| Questions.OneDecimal | src/questionTypes.js:213-220 | "w,d" with one decimal denotes 10w + d |
| Questions.TwoDecimals | src/questionTypes.js:227-236 | "w,th" with two decimals denotes 100w + 10t + h |
| Questions.ThreeDecimals | src/questionTypes.js:243-253 | "w,hto" with three decimals denotes 1000w + 100h + 10t + o |
| Questions.DigitStrings | src/questionTypes.js:151-206 | drawn digits written side by side are a digit string denoting their number |
| Questions.AdditionCrossing10Attempt | src/questionTypes.js:12-28 | an attempt is kept iff the sum is 10 to 30, and its answer denotes the sum |
| Questions.AdditionCrossing10 | src/questionTypes.js:12-28 | a generated answer denotes a number from 10 to 30 |
| Questions.AdditionCrossing10Retry | src/questionTypes.js:12-28 | the draws always cross ten, and an attempt is redrawn iff the sum is above 30 |
| Questions.SubtractionCrossingAttempt | src/questionTypes.js:35-60 | an attempt is kept iff the difference is 1 to 30, and its answer denotes it |
| Questions.SubtractionCrossingNoRetry | src/questionTypes.js:35-60 | the subtrahend range is never empty, no attempt is redrawn, and the difference is 10 to 19 from 20 up and 1 to 9 below |
| Questions.Multiplication | src/questionTypes.js:67-88 | the answer denotes the product, within 1 to 50 for the easy table and 6 to 90 for the hard one |
| Questions.PlaceDigit | src/questionTypes.js:95-144 | a place digit is a single digit |
| Questions.NatToStringDigitAt | src/questionTypes.js:95-144 | the k-th character from the right of the number's text is its 10^k place digit |
| Questions.PlaceValueAnswer | src/questionTypes.js:95-144 | the question shows the prompt and the number, and the answer is the digit in the asked place |
| Questions.PlaceDigitsOfFour | src/questionTypes.js:95-144 | the ones, tens, hundreds and thousands digits of a four-digit number weighted by 1, 10, 100, 1000 sum to the number |
| Questions.PlaceValueCompose | src/questionTypes.js:95-144 | the four place-value answers of a four-digit number put it back together |
| Questions.DecimalPlace | src/questionTypes.js:151-206 | the question shows the decimal, and the answer is its last written digit |
| Questions.FractionToDecimalTenths | src/questionTypes.js:213-220 | "n/10 =" is answered by a one-decimal text denoting n tenths |
| Questions.FractionToDecimalHundredths | src/questionTypes.js:227-236 | "n/100 =" is answered by a two-decimal text denoting n hundredths |
| Questions.FractionToDecimalThousandths | src/questionTypes.js:243-253 | "n/1000 =" is answered by a three-decimal text denoting n thousandths |
| Questions.DecimalAdditionTenths | src/questionTypes.js:313-332 | the answer denotes the sum of the tenths |
| Questions.DecimalAdditionTenthsRange | src/questionTypes.js:313-332 | the drawn sum is at most ten tenths, and "1,0" is the answer iff it is exactly ten |
| Questions.HundredthsText | src/questionTypes.js:339-367 | "w," followed by the tens and ones digits of x below 100 denotes 100w + x hundredths |
| Questions.DecimalAdditionHundredths | src/questionTypes.js:339-367 | the answer denotes the sum of the hundredths, with or without a carry |
| Questions.DecimalAdditionHundredthsNoCarry | src/questionTypes.js:339-367 | the drawn sum is at most 98 hundredths, so the answer starts "0," |
| Questions.DecimalAdditionMixed | src/questionTypes.js:374-389 | the answer denotes the sum of the two mixed numbers in tenths |
| Questions.ComparisonPattern | src/questionTypes.js:260-306 | both numbers are well formed; the answer is one of them; pattern index 1 (counting from 0, the trailing-zero pattern) shows equal values and the others a strictly bigger answer |
| Questions.DecimalComparison | src/questionTypes.js:260-306 | the question shows both numbers and the answer is one of them: the bigger one, or either when the trailing-zero pattern (index 1) makes them equal |

## Left out

- The relay handlers of server.cjs:121-273 are not modelled. They keep no state. Most pass a message on to the room under its own name. Some do not:
  - `update-stats` goes out as `player-stats-updated` with the sender's id (server.cjs:153-161).
  - `update-player-score` goes out as `player-score-updated` (server.cjs:216-222).
  - `hack-attempt` goes only to the socket named by `targetId`, carrying the hacker's id and name and a password (server.cjs:247-257).
- Hacker.HackerScene.HackEventReceived, PlayerScoreUpdate, CryptoMinerTick, GameTimerStartedReceived and LateJoinerConnected model the scene's listeners for `hack-event`, `player-score-update`, `crypto-miner-tick`, `game-timer-started` and `late-joiner-connected` as the scene defines them. The server.cjs given here delivers none of these under those names:
  - it has no handler for `crypto-miner-tick`, `password-countdown-tick`, `game-timer-started` or `notify-late-joiner-timer-started`;
  - it renames `update-player-score`;
  - it passes `hack-attempt` on under its own name and only to `targetId`, while the scene sends `victimId`.
  The client connects to a separately deployed server (src/multiplayer.js:14). With this server those listeners never run, and a hack changes no score.
- src/multiplayer.js and src/main.js are not part of this model. Socket ids, player lists and player counts are parameters.
- Rendering, DOM panels, sounds, tweens and particle effects are left out. They decide no game state.
- Monster motion, speed, lanes and positions on screen are left out. A lane is a parameter. The boss's speed factor of 0.4, the freeze factor of 0.3 and health-bar colours are floating-point display values.
- Hacker.FormatScore: the `toFixed` branches (10000–99999 as "x.xk" and non-whole millions as "x.xM") are floating-point formatting and give `None`.
- Defence.GameScene.SyncTick: the position sync of every monster is left out. The order of the snapshot, which is the host's Map iteration order, is a parameter that lists each live id once.
- Defence.GameScene.MonstersReachBase: which monsters the frame's loop visits past the base line depends on motion and on Phaser's group iteration, so `arrived` is a parameter. The model processes every id it lists.
- The generation of wrong alternatives (`generateWrongAlternatives`) and the shuffling of answer options are left out. Only the correct answer decides a result.
- The random choice of the question type and its metadata are left out. The question is a parameter of `GenerateNewQuestion`.
- The shuffled password pool of HackerScene is left out. The chosen password is a parameter.
- Timers are methods called with the current time (`TimerTick`, `PasswordCountdownTick`). Creating and clearing the intervals, and the one-second delays, are not modelled.
- Random draws (`Math.random`, `Phaser.Math.Between`) are parameters. Their ranges appear as preconditions where the source relies on them.
- Hacker.Steal: `Math.floor(score * 0.3)` is modelled as ⌊3·score/10⌋, the exact value of the real product.
- The multiplayer manager's map of chosen passwords, which HackerScene reads and writes (HackerScene.js:315, 486-493), is modelled as a field of the scene holding the set of players who chose one. Only membership is read.
- Hacker.HackerScene.constructor: the chosen-password set is not the scene's own. `create` (HackerScene.js:126-175) never resets it, so its contents at creation are a parameter. The MultiplayerManager given here (src/multiplayer.js:4-11) never creates that map, so with these files `.set` at HackerScene.js:315 and `.size` at 489 would throw. The model assumes the map exists.
- The `password-countdown-tick` listener (HackerScene.js:355-378) only updates the display and is left out.
- Orphaned sprites and their clean-up, and the "Steal:" line of the hack modal, are display only.
- Questions.DecimalAdditionTenths, Questions.DecimalAdditionHundredths and Questions.DecimalAdditionMixed: the answer's value is proved; the source's rendering of each sum is followed, and the draw ranges are stated in the range lemmas.
- Questions.PlaceDigit: `Math.floor((n / 10) % 10)` in the source is integer division of a non-negative number, which agrees with Dafny's `/` and `%`.
- Questions.NatToStringDigitAt: proved for the places that exist in the source (ones to thousands).
- Defence.GameScene.SelectWeapon: the button's cost is assumed to be the weapon's cost in the weapon table.
- Phaser's scene time is modelled as whole milliseconds.
