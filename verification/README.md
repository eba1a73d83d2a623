# Prompt & Pray: a verified model of the game server's rules

This project is a Dafny model of the multiplayer co-op game in
`server.js` and three small client helpers. The model is verified with
Dafny 4.11.

In the game, up to four players share a room. Each picks one of four
roles: vanguard, engineer, scout or medic. Together they play one mission
on a spaceship. The mission runs through these phases:

- an opening cinematic;
- a 15-second intro;
- three repair objectives;
- a boss fight;
- a final repair at the engine.

All of this runs against a 600-second mission clock. The server runs
20 ticks per second.

The model covers:

- **Map geometry and the navigation grid** (`geometry.dfy`, `navgrid.dfy`):
  - the walkable zone rectangles and obstacle tests;
  - the 96 × 96 grid of 32-pixel cells that `buildNavGrid` marks walkable.
- **Path finding** (`pathfinder.dfy`): `findPath`, an 8-neighbour A\*.
  - Costs are kept in fifths of a cell, so 1 and 1.4 become 5 and 7.
  - It has the 7 × 7 nearest-walkable fallback for an unwalkable goal.
  - It has the 2000-expansion cap. Each expansion closes a different cell,
    either the start or a walkable cell, and never the goal. So the search
    gives up only in two cases: no walkable path reaches the goal, or the
    grid has at least 2000 such cells besides the goal.
- **Hit points** (`combat.dfy`):
  - damage reduction, hits and deaths;
  - the respawn countdown and respawn;
  - the medic's beam and Field Surge;
  - damage to enemies and to the boss;
  - `angleDiff`.
- **Spawning** (`spawning.dfy`):
  - enemy creation;
  - `handleSpawning`'s spawn timer;
  - the exact size of each wave under the quotas;
  - the wave budget.
- **The encounter** (`mission.dfy`, `encounter.dfy`):
  - the phase machine driven by `gameTick`;
  - objective repair and `completeObjective`;
  - the boss's phase counter and death;
  - the guarded `endGame`.
- **Encounter invariants** (`rules.dfy`):
  - the bookkeeping a running game keeps from tick to tick;
  - the bound of at most one phase step per tick.
- **Rooms** (`lobby.dfy`):
  - creating rooms, joining, leaving with host hand-off, and removing empty rooms;
  - role selection, the ready toggle, `canStartGame` and starting a game;
  - running a room's game until it ends.
- **Client helpers**:
  - particle and floating-text ageing (`particles.dfy`);
  - the camera (`camera.dfy`);
  - sprite direction choice and per-id animation records (`assets.dfy`).

Parameters replace everything the model cannot see:

- **Randomness.** Every `Math.random()` draw is a parameter of type `Unit`,
  a real in [0, 1).
- **Square roots.** Distances are compared as squares. The lemma
  `Geometry.HypotComparison` shows this is the same test as comparing
  `Math.hypot`.
- **Movement and attacks.** A tick's movement and attack stages are
  functions passed in. These are `updatePlayer`, `updateEnemies`, the boss's
  behaviour after its phase check, `updateProjectiles` and `updateTurrets`.
  Each stage is only assumed to satisfy `Encounter.StagesKeep`:
  - it neither adds nor removes players;
  - it only ever removes enemies;
  - it neither creates nor removes the boss, nor changes the boss's phase.

Three behaviours of the code that are easy to misread, all reproduced here:

- `findPath` also returns `[]` when the goal is unwalkable and its
  substitute cell is the start cell. The empty path is therefore not only
  for a start and goal that share a cell.
- The objective-1 warning is sent at 10 seconds into the phase, and
  spawning begins at 15 seconds.
- The phase timer advances twice in every tick after the cinematic.

## Model

| member | source | states |
|---|---|---|
| Roles.Stats | server.js:33-38 | Every role has positive hit points, damage and range. |
| Geometry.HypotComparison | server.js:177-179 | For any non-negative root of dx²+dy², "root < limit" is exactly the squared-distance test the model uses. |
| Geometry.ClampInto | server.js:1174-1175 | A point clamped into a zone of positive size, with a positive radius, overlaps that zone. |
| Geometry.NearestZoneIsFirstMinimum | server.js:1166-1172 | The zone chosen for the push-back has the smallest clamp distance of all zones, and no earlier zone ties it. |
| Geometry.ResolveIntoZones | server.js:1156-1177 | An entity already overlapping a zone stays put; otherwise it is clamped into the nearest zone. |
| Geometry.ResolvedPointIsInsideAZone | server.js:1156-1177 | After the zone step, an entity with a positive radius always overlaps some zone. |
| NavGrid.IndexRoundTrip | server.js:160 | The cell index `y*96+x` of an in-grid cell is valid, and its column and row give back x and y. |
| NavGrid.IndexDecomposes | server.js:225-226 | Every valid index is the index of its own column and row. |
| NavGrid.FindContainingZone | server.js:162-169 | The zone scan finds a containing zone exactly when the cell centre lies in some zone, edges included. |
| NavGrid.FindBlockingObstacle | server.js:172-181 | The obstacle scan reports a hit exactly when some obstacle is closer to the centre than the enemy radius. |
| NavGrid.BuildNavGrid | server.js:150-185 | The grid has 96×96 cells, and each is walkable exactly when its centre is in a zone and clear of every obstacle. |
| Pathfinder.CellOfPoint | server.js:189-199 | A point maps to a valid grid index, whatever its coordinates, even negative or past the edge. |
| Pathfinder.CentreRoundTrip | server.js:260-261 | A waypoint is a cell centre, and the cell it names is the cell it came from. |
| Pathfinder.NearestWalkableIsFirstMinimum | server.js:205-229 | The substitute goal is None exactly when the 7×7 window has no walkable in-grid cell. Otherwise it is a walkable cell of least squared offset, the first such in scan order. |
| Pathfinder.ResolveGoal | server.js:204-230 | A walkable goal is kept; any substitute is a valid walkable cell. |
| Pathfinder.SelectLowest | server.js:245-254 | The chosen open cell has the least f-score, and no earlier open cell ties it. |
| Pathfinder.Reconstruct | server.js:256-265 | The reconstructed waypoints form a valid path from the start to the target, and are empty exactly when target and start coincide. |
| Pathfinder.Relax | server.js:290-296 | Relaxing a neighbour keeps the search invariant. The start is reached at cost 0 with no parent. Every other reached cell has a parent. Each parent is a touching cell reached strictly more cheaply, and only walkable cells get one. |
| Pathfinder.NeighbourAt | server.js:271-286 | The neighbour at an offset of the table is a valid cell touching the current one, or None off the grid. |
| Pathfinder.NeighbourAtSlot | server.js:274-283 | The eight offsets cover every touching cell: each is the neighbour of its own slot. |
| Pathfinder.EnclosedSetBlocks | server.js:244-299 | A set of cells holding the start but not the goal, closed under stepping to walkable touching cells, leaves no walkable path to the goal. |
| Pathfinder.ExpandOne | server.js:285-297 | One neighbour is skipped or relaxed. The search invariant holds afterwards. Every reached cell is still open or closed. The walkable touching cell in that slot is reached, and no reached cell becomes unreached. |
| Pathfinder.ExpandNeighbours | server.js:271-297 | Expanding all eight neighbours keeps that invariant and every open cell reached. Afterwards every walkable cell touching the current one is reached. |
| Pathfinder.InitSearch | server.js:232-240 | The initial bookkeeping satisfies the search invariant. Nothing is closed, and the start is the one open and the one reached cell. |
| Pathfinder.CloseAndExpand | server.js:268-297 | After the target check the chosen cell is closed and expanded. Every reached cell stays open or closed, and every walkable cell touching a closed cell stays reached. The target is never closed. The open list stays free of duplicates and closed cells, and exactly the chosen cell joins the closed ones. |
| Pathfinder.Search | server.js:232-299 | The result is `Some([])` exactly when target equals start, and any path returned is a valid walkable 8-connected path from start to target. Each expansion that does not reach the target closes one more distinct cell, which is the start or walkable and never the target. So `null` comes in only two cases: no walkable 8-connected path reaches the target, or the grid has at least 2000 such cells besides the target. |
| Pathfinder.RemoveAt | server.js:268 | Removing the chosen entry keeps every other open cell on the list and adds none. On a list without duplicates the chosen cell leaves it entirely, and the rest stay distinct. |
| Pathfinder.OpenExhausted | server.js:244-299 | When the open list runs dry before the cap, no walkable path from start to target exists. |
| Pathfinder.FindPath | server.js:188-300 | `[]` exactly when the clamped start and end cells coincide or the resolved goal is the start. `null` when the cells differ and no walkable substitute exists. A non-empty path excludes the start, has waypoints on walkable cell centres with consecutive cells 8-adjacent, and ends at the resolved goal. With a resolved goal, `null` means one of two things: no walkable path reaches that goal, or the grid has at least 2000 walkable cells (counting the start) besides it. |
| Combat.DamageTaken | server.js:736-738 | An active vanguard or medic takes floor(0.7·dmg); anyone else takes full damage. Damage taken never exceeds the blow. |
| Combat.ApplyHit | server.js:736-745 | After a hit HP is non-negative. The player stays alive exactly when HP stays positive. A death sets HP 0 and the source's respawn timer. Only hp, alive, respawn timer and combat timer change. |
| Combat.Heal | server.js:628 | A heal never lifts HP above max HP. A non-negative heal of a player at or below max HP never lowers it. Nothing but HP changes. |
| Combat.RegenTick | server.js:540-542 | Regeneration raises HP exactly for a wounded vanguard in combat, never past max HP. |
| Combat.BeamTarget | server.js:616-625 | The beam has no target exactly when no other live, wounded ally is within 200. Otherwise the target is such an ally at least as near as every other. |
| Combat.BeamTargetIsFirstNearest | server.js:617-625 | No earlier candidate is as near as the beam target. |
| Combat.HealNearestAlly | server.js:616-634 | Only the target's HP and the medic's healing score change. No one is healed past max HP. |
| Combat.FieldSurge | server.js:663-676 | Every other living player within 300 gets +60 HP capped at max, with the ability active for 4 s. Every other player is untouched. A living medic is healed and shielded the same way; a dead one keeps HP and ability state. The medic's cooldown becomes 30. The medic is credited 60 for every player in the game, reached or not. Nothing else of the medic's record changes. |
| Combat.Respawn | server.js:1221-1229 | A respawned player is alive with HP floor(role HP × 0.5), strictly between 0 and full. The player is placed in the 300–500 × 200–300 box, with attack cooldown 0. |
| Combat.RespawnTick | server.js:465-469 | A dead player's timer runs down by one tick, and the player respawns exactly when it reaches 0. An `Infinity` timer never runs out. |
| Combat.RespawnAfterExactlyKTicks | server.js:465-469 | A timer of k ticks brings the player back on exactly the k-th tick and not before. |
| Combat.MeleeDeathRespawnsAfterFiveSeconds | server.js:741-745 | A player killed by an enemy is still dead after 99 ticks and alive after 100 (5 seconds). |
| Combat.BossDeathIsPermanent | server.js:928-931 | A player killed by the boss's charge or a projectile never respawns, however many ticks pass. |
| Combat.NeverTimerStaysDead | server.js:466-467 | Ticking an `Infinity` respawn timer changes nothing. |
| Combat.DamageEnemy | server.js:1044-1052 | The enemy loses exactly the amount. An attacker is credited the damage, and one kill exactly when the enemy's HP reaches 0. |
| Combat.BossDamage | server.js:960-961 | Under the weakpoint scan damage is floor(1.35·amount), which is at least the amount; otherwise the amount itself. |
| Combat.DamageBoss | server.js:958-965 | The boss loses, and the attacker is credited, the same adjusted damage: at least the raw amount. |
| Combat.AngleDiff | server.js:1145-1149 | For angles at most 2π apart the result is the shorter way round the circle, between 0 and π. |
| Combat.AngleDiffSymmetric | server.js:1145-1149 | The angle difference does not depend on argument order. |
| Spawning.PickPoint | server.js:813 | A random pick is always one of the zone's four spawn points. |
| Spawning.NewEnemy | server.js:752-763 | A new enemy has full HP of (70 or 120) × the HP scale. Grunts take the mission's damage and speed bases; elites take 18 and 80. |
| Spawning.SpawnEnemy | server.js:752-763 | Spawning appends exactly one enemy with the next id, and changes nothing else. |
| Spawning.Plan | server.js:786-805 | Exactly objectives 1–3 and the final phase have a wave plan. Only objective 3 mixes in elites, and no wave exceeds 5. |
| Spawning.WaveSize | server.js:789-801 | A wave has its base count or one more. |
| Spawning.SpawnOne | server.js:813-815 | Each spawned enemy has the next id and HP scaled from its kind's base. Elites appear only when the plan allows them. |
| Spawning.WaveFrom | server.js:810-817 | The wave loop adds exactly `Allowance` enemies: its count, cut off at 15 spawned in objective 1 and at 45 in objective 2. They have consecutive ids. |
| Spawning.WaveKeepsQuota | server.js:810-812 | The in-loop checks keep objective 1 at 15 spawned and objective 2 at 45. |
| Spawning.WaveScalesHp | server.js:757-758 | Every enemy of a wave has HP scaled by the mission's HP scale. |
| Spawning.Wave | server.js:809-817 | A wave appends exactly `Allowance` enemies. The phase's spawn count and the id counter grow by the number appended. |
| Spawning.StartWave | server.js:786-818 | A phase without a plan, or more than 20 live enemies, returns with nothing changed and the timer not reset. Otherwise the wave's random size, cut at the quota, is spawned and the timer is reset to the plan's interval. A wave adds at most 5. |
| Spawning.Warned | server.js:769-773 | The warning flag is set exactly when it was already set, or objective 1 has run 10 seconds. |
| Spawning.HandleSpawning | server.js:765-819 | Enemies are only appended, and counted in the phase total. Nothing spawns in cinematic, intro or boss, in objective 1 before 15 s or at quota, in objective 2 at quota, or above 20 enemies. A held phase keeps its spawn timer. Otherwise the timer drops by one tick. Once it reaches 0 with a plan and at most 20 enemies, the timer is reset to the interval and the wave's size, cut at the quota, is appended. At most 5 spawn, so a world of at most 25 stays at most 25. |
| Spawning.WaveComesIffDue | server.js:765-819 | Enemies spawn exactly when the phase is not held, the timer has run out, the phase has a plan and at most 20 enemies live. A due wave in objective 3 or the final phase brings its base count or one more. |
| Spawning.SpawningKeepsBudget | server.js:765-819 | Spawning never pushes objective 1 past 15 or objective 2 past 45. Every new enemy's HP is scaled by the HP scale. |
| Encounter.SpawnPositionsDistinct | server.js:405-411 | Any four consecutive players start on four different spots. |
| Encounter.Enlist | server.js:409-425 | A new player is alive at full role HP and speed on their spot, with a zero score and no ability running. |
| Encounter.StartingMission | server.js:377-401 | A mission starts in the cinematic with 600 s on the clock. It starts with no objectives done, HP scale 1, damage base 12 and speed base 100. |
| Encounter.CreateGameState | server.js:376-427 | The game has one player per lobby member in order, and no enemies, boss or weakpoint. |
| Encounter.EndGame | server.js:1231-1234 | Ending marks the game over. It reports the outcome exactly when the game was not already over. |
| Encounter.EndGameTakesEffectOnce | server.js:1233 | A second end-of-game after the first has no effect and reports nothing. |
| Encounter.ObjectivePoint | server.js:128-133 | Exactly objectives 1–3 and the final phase have a repair point. |
| Encounter.Completed | server.js:1099 | The number of objectives done in each phase is at most 3, and 0 exactly up to objective 1. |
| Encounter.RepairRate | server.js:1069-1086 | Each repairer's rate is positive and at most 1/30 per second, the engineer's best. |
| Encounter.RepairCreditIsRelativeRate | server.js:1072-1084 | Each repairer's score credit is one tick scaled by its rate relative to an engineer's. |
| Encounter.RepairSpeed | server.js:1062-1087 | Total repair speed is non-negative and at most 1/30 per player. It is positive exactly when someone alive is interacting within 80 of the point. |
| Encounter.CreditRepairs | server.js:1063-1087 | Only repairing players' repair scores change, each by a positive amount of at most one tick. |
| Encounter.AwardRepairs | server.js:1106 | Every player's repair score grows by the completion bonus, and nothing else changes. |
| Encounter.CompleteObjective | server.js:1097-1137 | Progress, phase timer, spawn count and warning reset. The completion count rises by 1 and HP scale by 0.1. Objectives 1–3 step to the next phase with their door, damage and speed changes. Objective 3 spawns a fresh 2000-HP boss and clears enemies. The final phase ends the game as a victory, once. |
| Encounter.HandleObjective | server.js:1055-1095 | Phases without a repair point are untouched. Only a final-phase completion reports an outcome, and it is a victory. |
| Encounter.ObjectiveCompletesAtOne | server.js:1089-1094 | An objective completes exactly when progress plus this tick's repair reaches 1. Otherwise only the progress changes. |
| Encounter.RepairIsBounded | server.js:1062-1090 | One tick adds at most 1/30 per player per second of progress. |
| Encounter.BossPhaseOf | server.js:854-855 | The boss phase floor((1 − hp/maxHp)·4) is at most 3 while the boss lives, and at least 0. |
| Encounter.BossPhaseMonotone | server.js:854-857 | Lower boss HP never gives a lower phase. |
| Encounter.AddCount | server.js:862 | A phase change brings 3 or 4 adds. |
| Encounter.BossAdd | server.js:861-864 | Each add is a grunt at one of the boss-add spawn points, with scaled HP. |
| Encounter.SpawnAdds | server.js:861-865 | The adds are 3 or 4 appended grunts with scaled HP and fresh ids. |
| Encounter.BossDefeated | server.js:842-850 | A boss death starts the final phase with the countdown on and the clock cut to at most 60 s, never raised. |
| Encounter.Calm | server.js:869-872 | The aggro window closes once its timer runs out. |
| Encounter.BossStatus | server.js:842-872 | A dead boss is removed and the final phase begins. A living boss's phase becomes the larger of the old and the HP-derived one, with 3–4 adds exactly when it rises. |
| Encounter.PlayersFrom | server.js:464-473 | The player loop keeps the player count and adds no enemies. A boss is neither created nor removed, and keeps its phase and max HP. |
| Encounter.BossStep | server.js:479 | Without a boss nothing changes. A dead boss leads to the final phase. A living boss keeps its max HP. Its phase never falls and never rises past 3. At most 4 enemies are added, and none unless the phase rose. |
| Encounter.WeakpointTick | server.js:492-497 | The weakpoint stays active exactly while its timer has time left; nothing else changes. |
| Encounter.AllDownCheck | server.js:499-510 | The game is lost exactly when no player is alive or respawning on a finite timer. |
| Encounter.CinematicTick | server.js:435-443 | The cinematic only runs the phase clock, and hands over to the intro after 6 s. |
| Encounter.Resume | server.js:454-461 | The phase timer runs again, and the intro becomes objective 1 after 15 s with the timer reset. |
| Encounter.Settle | server.js:486-510 | Any outcome marks a game that was running as over. A game that goes on has someone alive or respawning. |
| Encounter.Play | server.js:463-510 | The same as Settle, for the whole running part of a tick. |
| Encounter.GameTick | server.js:430-514 | A cinematic tick only runs the cinematic clock. At timeout the clock stops at 0 with nothing else run, and the game is lost (once). An outcome is reported only for a running game. A game that goes on has someone still in. |
| EncounterRules.StartIsValid | server.js:376-427 | A new game of up to four players satisfies the running-game invariant. |
| EncounterRules.ClockKeepsValid | server.js:445-461 | Running the clock keeps the mission invariant while time is left, and advances the phase by at most one. |
| EncounterRules.BossStepKeepsValid | server.js:840-872 | The boss step keeps the invariant, including a boss exactly in the boss fight and at most 4 adds per phase. |
| EncounterRules.SpawningKeepsValid | server.js:765-819 | Spawning keeps the invariant: quotas and at most 25 enemies. |
| EncounterRules.CompletionKeepsValid | server.js:1097-1137 | A completion that does not end the game keeps the invariant in the next phase. |
| EncounterRules.ObjectiveKeepsValid | server.js:1055-1137 | Objective handling that does not end the game keeps the invariant. |
| EncounterRules.WrapUpKeepsValid | server.js:491-510 | The weakpoint and all-dead steps keep the invariant when the game goes on. |
| EncounterRules.PlayKeepsValid | server.js:463-510 | A running tick that ends without an outcome leaves a valid game. |
| EncounterRules.TickKeepsValid | server.js:430-514 | Every tick of a valid game that does not end it leaves a valid game. |
| EncounterRules.NoCompletionFromScratch | server.js:1089-1094 | With no repair progress, one tick cannot complete an objective. |
| EncounterRules.ObjectiveStepsOnce | server.js:1089-1137 | Objective handling keeps the phase or moves to the next one with the timer reset. |
| EncounterRules.SettleAdvancesAtMostOne | server.js:486-510 | The closing steps of a tick advance the phase by at most one, and not at all from zero progress. |
| EncounterRules.PlayAdvancesAtMostOne | server.js:463-510 | The running part of a tick advances the phase by at most one. |
| EncounterRules.TickAdvancesAtMostOne | server.js:430-514 | A tick never moves the phase back and never skips a phase. |
| EncounterRules.PhaseTimerRunsTwice | server.js:447-454 | In a tick that keeps the phase, the phase timer grows by two ticks. |
| EncounterRules.BossPhaseNeverDecreases | server.js:853-857 | A tick never lowers the boss's phase. |
| Lobby.DecimalRoundTrip | server.js:328 | The digits of a player number read back as that number. |
| Lobby.DisplayName | server.js:328 | A non-empty name is kept. A missing or empty name becomes a non-empty default. |
| Lobby.AsciiUpper | server.js:1337 | Upper-casing keeps the length, leaves no lower-case letter, and keeps every other character. |
| Lobby.AsciiUpperIdempotent | server.js:1337 | Upper-casing twice is upper-casing once. |
| Lobby.IndexOf | server.js:1360 | The lookup finds the first member with that connection, or None exactly when there is none. |
| Lobby.Put | server.js:329 | Setting a member replaces the entry of the same connection in place, or appends. Connections stay distinct. |
| Lobby.Delete | server.js:335 | After deletion no member has that connection. |
| Lobby.DeleteAbsent | server.js:335 | Deleting a connection that is not there changes nothing. |
| Lobby.DeleteAt | server.js:335 | Deleting a present connection removes exactly its entry and keeps the others in order. |
| Lobby.CreateRoom | server.js:313-324 | A new room is empty with no game or host under its code; other rooms are untouched. |
| Lobby.AddPlayer | server.js:326-332 | The newcomer gets the next player id and a default name if needed. The first member becomes host. |
| Lobby.RemovePlayer | server.js:334-343 | The member is removed. A departing host hands over to the first remaining member. An emptied room is deleted; other rooms are untouched. |
| Lobby.CanStartGame | server.js:360-373 | The start check is true exactly when there is at least one member, no two share a role, every member has a role, and every non-host is ready. |
| Lobby.HandleCreateRoom | server.js:1326-1334 | The creator is the new room's only member and its host. |
| Lobby.HandleJoin | server.js:1336-1356 | A join is refused for a missing room, a full room (4) or a running game. Otherwise the player is added. |
| Lobby.HandleSelectRole | server.js:1358-1373 | A choice another member already holds is refused, no role included, since the source compares with `===`. An accepted choice sets the member's role and clears ready. Refused and ignored requests change nothing. |
| Lobby.HandleReady | server.js:1375-1382 | Ready toggles exactly for a member with a role while no game runs. |
| Lobby.Roster | server.js:409-413 | The players enter the game in lobby order with their ids, names and roles. |
| Lobby.HandleStart | server.js:1384-1397 | Only the host starts, only when the start check passes, and the room then holds a fresh game. |
| Lobby.HandleClose | server.js:1455-1462 | A closed connection leaves its room as `removePlayerFromRoom` says. |
| Lobby.TickRoom | server.js:1245-1249 | A room's game runs one tick and is dropped once it reports an outcome. |
| Lobby.CreateRoomKeepsValid | server.js:1326-1334 | Creating a room keeps every room well formed. |
| Lobby.PutNewcomerKeepsRoom | server.js:326-332 | Adding a role-less newcomer to a room with space keeps it well formed. |
| Lobby.JoinKeepsValid | server.js:1336-1356 | Joining keeps every room at 1–4 members with distinct connections and roles and a host among them. |
| Lobby.SelectRoleKeepsValid | server.js:1358-1373 | Role selection keeps roles distinct. |
| Lobby.ReadyKeepsValid | server.js:1375-1382 | The ready toggle keeps every room well formed. |
| Lobby.StartKeepsValid | server.js:1384-1397 | Starting keeps every room well formed, its new game included. |
| Lobby.DeleteKeepsDistinct | server.js:335 | Removing a member keeps connections and roles distinct and every other member present. |
| Lobby.CloseKeepsValid | server.js:1455-1462 | A disconnect keeps every remaining room well formed, with its host among its members. |
| Lobby.TickRoomKeepsValid | server.js:1231-1250 | Running a room's game keeps every room well formed. |
| Particles.Sweep | public/js/particles.js:5-10 | The backward splice loop leaves exactly the advanced elements that pass the test, in their original order. |
| Particles.UpdateParticles | public/js/particles.js:4-18 | Both lists come out advanced by one frame and culled, and every survivor has positive life. |
| Particles.CullMembership | public/js/particles.js:9-10 | An element survives the cull exactly when it is in the input and passes the test. |
| Particles.CullAppend | public/js/particles.js:5-10 | The cull works piecewise, so survivors keep their relative order. |
| Particles.ParticleSurvivesIffAlive | public/js/particles.js:5-10 | A particle survives exactly when its life after the frame is positive. Every survivor is some particle advanced by its velocity. |
| Particles.FloatTextSurvivesIffAlive | public/js/particles.js:12-17 | A floating text survives exactly when its life after the frame is positive. A survivor differs from its original only in height and life. |
| Camera.WorldSize | public/js/camera.js:21-22 | The planet map is 4608×3072 and every other map name means the 3072×3072 ship. |
| Camera.AddShake | public/js/camera.js:39-41 | A jolt adds to the intensity but never past 15. |
| Camera.Follow | public/js/camera.js:16-17 | The camera covers exactly 10% of the remaining distance, stays between itself and the target, and gets strictly closer unless already there. |
| Camera.ClampAxis | public/js/camera.js:19-26 | A canvas smaller than the world keeps the camera in [half, world − half], leaving a camera already inside alone. A canvas at least as large centres it. |
| Camera.Decay | public/js/camera.js:31-32 | A positive intensity shrinks by 0.9 or snaps to 0; a remaining intensity is at least 0.5. |
| Camera.ShakeStep | public/js/camera.js:28-36 | The offsets never exceed the intensity, and no intensity means no shake. |
| Camera.SettledBound | public/js/camera.js:31-32 | After n quiet updates the intensity is at most the start × 0.9ⁿ. |
| Camera.SettledVanishes | public/js/camera.js:28-32 | A shake up to the cap of 15 is gone after any n quiet updates with 0.9ⁿ below 1/30. |
| Camera.ShakeDiesWithin33Updates | public/js/camera.js:28-32 | Any shake up to the cap of 15 is gone 33 updates after the last jolt. |
| Camera.UpdateCamera | public/js/camera.js:5-37 | Without a local player nothing changes. Otherwise a non-empty map name is adopted. Each camera axis is the 10% easing toward the player, clamped into that map or centred on it. The shake is one shake step: it decays and never exceeds the old intensity. |
| Camera.EasesTowardPlayer | public/js/camera.js:14-24 | With the camera and the player both inside the map, each axis's remaining gap to the player shrinks to exactly 0.9 of the old one. |
| Camera.CentredPlayerOnlyShakes | public/js/camera.js:14-26 | A camera already on a player well inside the map does not move. |
| Camera.WorldToScreen | public/js/camera.js:43-48 | A point's screen offset from the shaken canvas centre equals its world offset from the camera. |
| Camera.WorldToScreenIsTranslation | public/js/camera.js:43-48 | The map is a pure translation: differences are preserved, and the camera lands on the shaken centre. |
| Assets.OrcDirRow | public/js/assets.js:79-83 | Rows are 0–3: 1 exactly for a mainly-leftward step, 2 for rightward, 3 for upward, and 0 for downward or idle (both axes under 0.3). |
| Assets.OrcDirRowMirrors | public/js/assets.js:79-83 | Mirroring a step left to right swaps rows 1 and 2 and keeps rows 0 and 3. |
| Assets.SectorOf | public/js/assets.js:101-108 | Every angle in [0, 360) lies in the 45° sector of exactly one of the eight facings, lower edge included; east covers [337.5, 360) ∪ [0, 22.5). |
| Assets.Rem360 | public/js/assets.js:100 | The remainder has the dividend's sign, is less than 360 in size, and differs from the dividend by whole turns. |
| Assets.AngleToDir | public/js/assets.js:99-109 | Any angle from −360° up gets the facing of its sector after reduction. Anything lower is read as east. |
| Assets.AngleToDirIsPeriodic | public/js/assets.js:99-100 | Adding a full turn does not change the facing. |
| Assets.Recall | public/js/assets.js:85-97 | A missing record is created with the default; an existing one is returned and nothing is stored. Other entries are untouched. |
| Assets.RecallIsStable | public/js/assets.js:85-97 | Asking again for the same id returns the same record and leaves the store alone. |
| Assets.EnemyAnimOf | public/js/assets.js:85-90 | An enemy's animation record is created zeroed on first lookup and returned unchanged afterwards. |
| Assets.PlayerAnimOf | public/js/assets.js:92-97 | A player's animation record is created zeroed, not dead, on first lookup and returned unchanged afterwards. |

## Left out

- WebSocket, Express, broadcasting, lobby updates, chat, WebRTC relay and input messages (server.js:1-14, 345-358, 1253-1314, 1399-1451). These are transport.
- The events list pushed for the client (announcements, damage numbers). It is presentation.
- Tick scheduling with `setInterval`. The model runs one tick at a time.
- Floating point. Positions, timers and HP are exact reals, and `DT` is exactly 0.05. Float32 scores in the A\* arrays are exact fifths.
- Loading obstacles from `ship_collisions.json` and their rotated boxes. These are file I/O and trigonometry; the obstacle list is a parameter.
- The obstacle push-out of `constrainToMap` (server.js:1180-1218). It needs square roots and division by the distance.
- Player movement, `performAttack`, `activateAbility` for vanguard, engineer and scout, enemy steering and attacks, and the boss's targeting, charge, projectile burst and movement. Also `updateProjectiles` and `updateTurrets`. These are the tick's stage functions, assumed only to keep `Encounter.StagesKeep`. The HP rules they apply are modelled in `Combat`.
- The `objectiveIndex` field of the game state. It is never read.
- The process-wide `nextEnemyId` and `nextPlayerId` counters. These are explicit fields of the world and server.
- `endGame`'s score sort and `gameOver` broadcast (server.js:1236-1243). These are presentation.
- After a victory `room.gameState` becomes `null`, and a later `endGame` on it would fail. A victory needs a live player, so the all-dead check cannot follow it; the model drops the game when a tick reports an outcome.
- Random room codes. A code is a parameter. Two rooms drawing the same code overwrite each other in the source's map. A connection whose room was overwritten closes without effect here.
- Lobby.AsciiUpper: `toUpperCase` also maps non-ASCII letters; the model upper-cases `a`–`z` only.
- Lobby.HandleSelectRole: the role arrives as a known role or none (`null`); arbitrary strings from the client are not modelled.
- Lobby.HandleStart: like the source, it does not check for a running game; only the host can start, and a second start replaces the game. The tick timer is not modelled. In the source a second start calls `setInterval` again (server.js:1395) without clearing the first, and `endGame` clears only the newest (server.js:1245-1248). From then on the room ticks twice per 50 ms, in that game and in later ones. This was read from the code, not executed.
- Assets.AngleToDir: takes the angle already converted to degrees; `angle * 180 / Math.PI` is not modelled because π is irrational.
- Camera.UpdateCamera: the local player is found by id in the game state; the model receives the result of that lookup.
- Particle and floating-text creation in the client's event handler and renderer. That is network and rendering code; the records carry their fields as created there.
- The legacy client `public/game.js`, which duplicates these helpers.
