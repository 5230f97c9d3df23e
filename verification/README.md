# Lurkspire server: verified model

A Dafny model of the Lurkspire game server: the room loop with its combat resolver, the hub that opens and closes rooms
and seats sessions in them, the wire formats, and the in-memory store, with proofs of what they keep over every run.

## How it is built

State is modelled twice. Step functions on values say what each message does; properties of whole runs are proved about
them. Classes with the program's own fields and loops are proved to do exactly what the step functions say, so the
properties hold of them. `WeaponRules`, `RoomRules`, `HubRules` and `WireLayout` say what a single step, or a single message
on the wire, does in numbers and fields, without the definitions the step functions are made of.

| part | on values | on objects | properties |
|---|---|---|---|
| geometry | `Geometry` | loops over locals in `Geometry` | `Geometry`, `CombatProofs` |
| combat | `Combat`, `VitalSigns` | `RoomObjects.Player`, `RoomObjects.Resolver` | `CombatProofs`, `WeaponRules` |
| room loop | `Validation`, `RoomModel` | `RoomObjects.RoomLoop` | `RoomInvariant`, `RoomLedger`, `RoomKills`, `RoomRates`, `RoomMovement`, `RoomDelivery`, `RoomReconnect`, `RoomOnce`, `RoomRules` |
| hub | `HubModel` | `HubObjects` | `HubInvariant`, `HubProofs`, `HubLifetime`, `HubReconnect`, `HubAssumptions`, `HubRules` |
| wire formats | `Frames`, `LobbyWire`, `FriendWire`, `BattleWire` | buffers, `Frames.Connection`, `Frames.FrameReader` | the same modules, `WireLayout` |
| store | `Accounts`, `Friends`, `Decimal` | `MemStores` | `Accounts`, `Friends`, `Decimal` |

`Base` and `Bytes` hold shared vocabulary.

Conventions:

- Numbers that the program keeps as 32-bit floating point are exact reals. A report's fields may also be not-a-number or
  infinite, because the input check tests for that. On the wire such a number is its 32-bit pattern.
- Square root, sine and cosine are parameters. Proofs that need it assume that a root squares to its argument and that
  the squares of sine and cosine add up to one.
- The choice of a spawn point is a parameter of a tick and of a join. The order in which a map is visited is any order;
  on values it is a parameter, on objects it is whatever the loop picks.
- A message to a room loop is one step, a handler of the hub is one step, one tick of one room is one step, and one
  cleanup is one step. A message that the circumstances rule out changes nothing.
- The hub is used sensibly: an account has at most one open session, a battle join is sent only from outside a room
  (session.go does not check this for `MsgBattleJoin`, as the two handlers in hub.go do), the offline message of a closed
  connection is not dropped, a closed session takes no further step, session ids wrap around only after the session that
  had the id has closed, and a cleanup of a stopped room has no effect. `HubAssumptions` proves exactly when
  breaking one of the first three puts the tables out of step, and `HubProofs.IdsAreFresh` when the ids cannot collide.

Where the repository's documents and its code differ, the model follows the code: there is no regeneration of block, no
block for a hit, no protection after a respawn and no five-minute limit unless one is configured. README.md:106 calls the
two stores equivalent; `Friends.StoresAgreeExactly` says exactly when they are.

`dafny verify dfyconfig.toml` checks the whole project.

## Model

| member | source | states |
|---|---|---|
| `Geometry.RayAABB` | internal/room/combat.go:58-91 | The slab loop returns exactly the least parameter of the whole line inside the box when that exists and is not negative, and -1 otherwise; direction components below 1e-9 count as zero |
| `Geometry.Entry` | internal/room/combat.go:58-91 | The reference value: the parameter is in the box, not negative, and no smaller parameter is; -1 exactly when there is none |
| `Geometry.RaycastWalls` | internal/room/combat.go:111-122 | The loop over the walls returns the least positive entry of all walls, for every wall list with non-negative sizes |
| `Geometry.NearestWall` | internal/room/combat.go:111-122 | A positive value is the entry of some wall and no positive entry is smaller; -1 exactly when no wall is entered ahead |
| `Geometry.ClearUpTo` | internal/room/combat.go:111-122 | No point of the ray before the nearest entry lies in a wall that does not already hold the origin |
| `Geometry.EntryBefore` | internal/room/combat.go:58-91 | A box that excludes the origin and holds a later point of the ray is entered strictly after the origin and no later than that point |
| `Geometry.RaySphereExact` | internal/room/combat.go:94-108 | For a unit direction the value is the smaller root of the sphere equation; it is positive exactly when an origin outside the ball has the ball ahead, and then it is the first parameter inside |
| `CombatProofs.DirectionIsUnit` | internal/room/combat.go:48-54 | The direction built from yaw and pitch has length one |
| `CombatProofs.HitIsClearShot` | internal/room/combat.go:156-187 | A shot that hits, hits one living other player within 40 units, at the first point of that player's sphere; no other living player's sphere is reached earlier, and before it the line of the wall test, which takes direction components below 1e-9 for zero, crosses no wall, apart from spheres and walls that hold the eye |
| `CombatProofs.MissIsJustified` | internal/room/combat.go:156-187 | A ready gun hits nobody if and only if no living player is exposed in range, or one wall is entered, on the line of the wall test, strictly before every exposed player |
| `CombatProofs.ExposedMeansInRange` | internal/room/combat.go:165-176 | A sphere test value in (0, 40] means exactly that the eye is outside the sphere and the line of fire meets it within range |
| `CombatProofs.SwordIsOrderFree` | internal/room/combat.go:191-223 | Every iteration order of the player map gives the same players and the same multiset of hits |
| `CombatProofs.DashIsOrderFree` | internal/room/combat.go:228-257 | The same for the dash |
| `CombatProofs.SwordHitsExactly` | internal/room/combat.go:191-223 | Each living other player in reach and arc is hit exactly once, from the state before the swing, and nobody else is hit |
| `CombatProofs.DashHitsExactly` | internal/room/combat.go:228-257 | The same for the dash |
| `CombatProofs.StrikeAllAt` | internal/room/combat.go:126-151 | Hits on different players do not interfere: each acts on the state before the volley |
| `CombatProofs.ReachMeans` | internal/room/combat.go:208-211 | The distance test is the circle of the given radius |
| `CombatProofs.ArcMeans` | internal/room/combat.go:216-219 | The arc test compares the inner product with the facing direction; a player at the same horizontal position counts as in the arc because the comparison with not-a-number is false |
| `WeaponRules.DirectionMeans` | internal/room/combat.go:48-54 | The aim direction has the sine of the pitch for its height, and in the plane points along the yaw with the cosine of the pitch for its length |
| `WeaponRules.ShotVolley` | internal/room/combat.go:126-187 | A shot in numbers: nothing while dead or cooling down; otherwise four ticks of cooldown and at most one blow of 25, halved and paid for with ten block by the block stance, 60 dead ticks and one point for a kill, everything else as before |
| `WeaponRules.OnlyTarget` | internal/room/combat.go:156-187 | Without walls and with one other living player, for every position r ahead and e off the aim line from the eye at 1.5 to the body at 1, the shot strikes if and only if the ball of radius one leaves the eye out and is entered within 40 |
| `WeaponRules.LevelShot` | internal/room/combat.go:156-187 | A level shot strikes whoever stands 1 to 40 straight ahead at the same height, at (sin, cos) of the aim, and not who stands that far behind |
| `WeaponRules.ShotIsClear` | internal/room/combat.go:111-187 | In coordinates: a shot strikes the first ball on the line, at some t up to 40, with no other ball and no wall that leaves the eye out holding a point of the line sooner |
| `WeaponRules.MissIsBlocked` | internal/room/combat.go:111-187 | In coordinates: when a ready gun strikes nobody, before every player in the way some wall holds a point of the line |
| `WeaponRules.SwordVolley` | internal/room/combat.go:191-223 | In coordinates: a ready sword strikes, once and for 50, exactly the living others with horizontal distance squared up to 9, height within 2, and at the same place or within 60 degrees of the facing |
| `WeaponRules.DashVolley` | internal/room/combat.go:228-257 | The same for the dash with 36, 30 degrees and 45 ticks |
| `WeaponRules.LockVolley` | internal/room/combat.go:263-294 | In coordinates: a ready lock spends a charge and 30 ticks and strikes, for 50, one of the living others within 60 in space and 20 degrees of the aim, not at distance zero, none of which is nearer; nobody exactly if there is none |
| `Combat.FirstLeastIsFirst` | internal/room/combat.go:163-180 | The target kept by the loop is eligible, none costs less, every eligible player visited before it costs strictly more; there is none exactly if nobody is eligible |
| `RoomObjects.Resolver.Hit` | internal/room/combat.go:126-151 | Block, clamped damage, score, death and the event of one hit, in place on the two players |
| `RoomObjects.Resolver.HitPlayer` | internal/room/combat.go:126-151 | The same on the player table: two players change, all others and all connections stay |
| `RoomObjects.Resolver.Aim` | internal/room/combat.go:163-180 | The loop over the players finds a living player on the line of fire that no other such player is nearer than, the first in the visiting order, or none exactly if there is none |
| `RoomObjects.Resolver.LockOn` | internal/room/combat.go:268-290 | The loop over the players finds a nearest living player within range and cone, the first in the visiting order, or none exactly if there is none; a player at distance zero is never locked on |
| `RoomObjects.Resolver.ApplyShot` | internal/room/combat.go:156-187 | Changes the table exactly as the value function says, and returns its events |
| `RoomObjects.Resolver.ApplySword` | internal/room/combat.go:191-223 | The same for the sword |
| `RoomObjects.Resolver.ApplyDash` | internal/room/combat.go:228-257 | The same for the dash |
| `RoomObjects.Resolver.ApplyLock` | internal/room/combat.go:263-294 | The same for the lock shot: one charge, the nearest living player in the cone, not at distance zero |
| `RoomObjects.Resolver.Attack` | internal/room/room.go:390-402 | Fire takes precedence over sword over dash; the lock goes off besides |
| `RoomObjects.Resolver.TickCombat` | internal/room/combat.go:299-333 | One tick of every player in the table: cooldowns, lock charge, respawn |
| `RoomObjects.Player.Tick` | internal/room/combat.go:299-333 | One player's share: cooldowns count down to zero, the lock charges to three, the last dead tick revives with full health and block at the chosen spawn |
| `RoomObjects.Player.Soften` | internal/room/combat.go:126-135 | A blocking player takes half the damage, rounded down, and loses ten block, not below zero |
| `RoomObjects.Player.Suffer` | internal/room/combat.go:136-142 | Damage is cut to the health that is left |
| `RoomMovement.CheckMoveExactly` | internal/room/validation.go:36-56 | A report passes if and only if both move components are within one, every number is finite, and, unless it is the first report or the player is dead, the new position is in the cylinder of radius 1.7 and half height 4 around the old one |
| `RoomObjects.Player.MarkViolation` | internal/room/validation.go:63-69 | A pass clears the count of violations, a failure adds one |
| `RoomObjects.Player.ApplyInput` | internal/room/validation.go:75-79 | An accepted report sets position and yaw and ends the first-report exemption |
| `RoomMovement.HorizontalTriangle` | internal/room/validation.go:49-51 | The horizontal distance used by the check satisfies the triangle inequality |
| `RoomMovement.MovementBound` | internal/room/validation.go:36-56 | While a player lives and is past its first report, n accepted reports move it at most 1.7 n horizontally and 4 n vertically, whatever else happens; refused reports do not move it |
| `RoomMovement.SuspicionIsRefusals` | internal/room/validation.go:63-72 | Since joining, the count is the number of refusals after the last accepted report, and a player is suspicious exactly from three on |
| `RoomRules.ReportAccepted` | internal/room/validation.go:36-72 | In numbers: when a report is accepted, and that a refused one adds one violation and changes nothing else but the report time |
| `RoomRules.ReportRecorded` | internal/room/room.go:371-388 | An accepted report makes position, yaw, aim, buttons, weapon and animation the report's own, ends the first-report exemption and clears the count; none of these changes for anybody else |
| `RoomRules.ReportSetsOff` | internal/room/room.go:389-402 | An accepted report sets off the gun with bit 0, else the sword with bit 1, else the dash with bit 5, from the recorded state, and then the lock with bit 7 |
| `RoomRules.ReportPends` | internal/room/room.go:403-405 | Its hits are appended to the pending events in order |
| `RoomModel.Config.Normal` | internal/room/room.go:130-139 | Between one and eight places and a positive grace period; valid settings are kept, other numbers of places become eight, other grace periods 900 ticks, and the settlement limits stay |
| `RoomInvariant.StepGood` | internal/room/room.go:217-250 | Every message keeps the invariant: health between 0 and 100 and zero exactly while dead, counters in range, at most MaxPlayers players, offline ticks below the grace period, and an emptied room has no players |
| `RoomInvariant.RunGood` | internal/room/room.go:217-250 | The same over every run |
| `RoomInvariant.TickAt` | internal/room/room.go:224-230 | What one tick does to one player, to the connections and to the empty-room latch |
| `RoomInvariant.AcceptedAt` | internal/room/room.go:371-405 | An accepted report changes every player as its hits say, the reporter's arms and aim, and appends exactly its hits to the pending events |
| `RoomRules.TickCounts` | internal/room/combat.go:299-333 | Field by field: who stays, online marks and ages, every cooldown, the lock charge, and the return at the chosen spawn with full health and block after the last dead tick |
| `RoomRules.BroadcastShows` | internal/room/room.go:253-296 | A broadcast is first the state, which shows exactly the players left with the room's own position, yaw, health, weapons, block, animation, score and deaths; then hits with each death notice behind its hit; and last, exactly when a score or the time has reached its limit and it was not sent before, the scores |
| `RoomRules.JoinRule` | internal/room/room.go:298-315 | A newcomer has a free place or is refused, and starts at the chosen spawn, field by field; whoever is there comes back online as before |
| `RoomRules.EquipRule` | internal/room/room.go:347-355 | Block and its maximum become 100 plus the bonus, of that player alone |
| `RoomRules.RosterRule` | internal/room/room.go:235-243 | Leaving takes out one player; an online mark is set and the offline count cleared, if the player is there |
| `RoomRules.SwitchRule` | internal/room/room.go:244-247 | The registrations set their callback, draining hands out and clears the pending events, a snapshot changes nothing |
| `RoomLedger.DamageLedger` | internal/room/combat.go:126-151 | From joining on, the damage of all hits on a player is 100 per death plus the health missing while it lives, across weapons, blocking, clamping and respawns |
| `RoomLedger.DeathRate` | internal/room/combat.go:321-331 | A player dies at most once in 60 ticks: 60 times the deaths never exceed the ticks since joining plus the current death timer |
| `RoomLedger.BlockBudget` | internal/room/combat.go:126-135 | Ten per hit blocked since the last refill plus the block left is the maximum, for every equipment bonus |
| `RoomLedger.StayOf` | internal/room/room.go:298-314 | Everybody in a reachable room is there by joining anew and staying since |
| `RoomKills.KillsAreDeaths` | internal/room/combat.go:143-149 | At every moment of every run the scores of present and departed players add up to their deaths |
| `RoomKills.KillBound` | internal/room/combat.go:143-149 | In T ticks there are at most T/60 + 1 kills for every time somebody joined anew |
| `RoomRates.TriggerRates` | internal/room/combat.go:156-163 | In any span of T ticks of a stay: at most 1 + T/4 shots, 1 + T/8 swings, 1 + T/45 dashes and 1 + T/30 lock shots |
| `RoomRates.LockRate` | internal/room/combat.go:263-268 | Since joining at most T/300 lock shots, and never more than three charges |
| `RoomRates.DamageRate` | internal/room/combat.go:156-163 | Since joining one attacker does at most 25 (1 + T/4) + 50 (2 + T/8 + T/45 + T/300) damage to one target, whenever that target comes and goes |
| `RoomDelivery.DeliveredOnce` | internal/room/room.go:253-271 | In every run the events handed out by broadcast or drain, followed by the pending ones, are the events produced, each once and in order |
| `RoomDelivery.DeathsAnnounced` | internal/room/room.go:261-269 | With the callback registered and nobody draining, the deaths since joining of a player who joins then are the Death messages sent for it, plus one if it died since the last tick |
| `RoomDelivery.DeathsAnnouncedSinceRegistering` | internal/room/room.go:244-245 | The same for a player who is in the room when the callback is registered and has not died before |
| `RoomDelivery.EveryDeathAnnounced` | internal/room/room.go:261-269 | In every run that begins as the hub opens a room, with a join and then the callback, and drains nothing, the same for everybody in the room, the first player included |
| `RoomReconnect.ReconnectInvisible` | internal/room/room.go:298-304 | An offline mark and a rejoin within the grace period leave the players, the pending events and all other outputs as they would have been |
| `RoomReconnect.ReconnectInvisibleInTrace` | internal/room/room.go:318-334 | The same inside any longer message trace: neither the final room nor any output changes |
| `RoomReconnect.RemovedOnTheLastTick` | internal/room/room.go:318-327 | Without a return the player is in the room exactly for the ticks before the last one of the grace period |
| `RoomOnce.SettlesWhenFirstDue` | internal/room/room.go:271-280 | After any run, a message makes the room settle exactly if it is the first broadcast that finds the score limit or the time limit reached |
| `RoomOnce.SettlesOnce` | internal/room/room.go:272-280 | Every run sends one settlement if any of its broadcasts found it due, and none otherwise |
| `RoomOnce.ReportsBetweenArrivals` | internal/room/room.go:328-333 | Between two arrivals a room reports at most once that it is empty, and not at all if it has done so since the last |
| `RoomOnce.ReportsOverall` | internal/room/room.go:298-334 | In every run there are at most as many reports as players who joined anew, and one fewer while a room that has had players is not reported empty |
| `RoomObjects.Player.constructor` | internal/room/room.go:311-312 | A new player has full health and block, no arms charged, and is online at its spawn |
| `RoomObjects.RoomLoop.constructor` | internal/room/room.go:130-156 | A new room is the empty value |
| `RoomObjects.RoomLoop.AddPlayer` | internal/room/room.go:298-315 | Rejoining keeps everything and clears the offline count; a newcomer needs a free place |
| `RoomObjects.RoomLoop.RemovePlayer` | internal/room/room.go:235-236 | The player is gone, the others stay |
| `RoomObjects.RoomLoop.SetOnline` | internal/room/room.go:239-243 | Sets the mark and clears the count, if the player is there |
| `RoomObjects.RoomLoop.ApplyEquip` | internal/room/room.go:347-355 | Block maximum and block become 100 plus the bonus |
| `RoomObjects.RoomLoop.HandleInput` | internal/room/room.go:357-406 | The handler does what the value step says, for some visiting orders |
| `RoomObjects.RoomLoop.DrainEvents` | internal/room/room.go:366-370 | Hands out all pending events and keeps none |
| `RoomObjects.RoomLoop.AgeOffline` | internal/room/room.go:318-327 | The loop that deletes from the map it ranges over removes exactly the players out of grace |
| `RoomObjects.RoomLoop.TickOfflinePlayers` | internal/room/room.go:318-334 | Ageing, removal, and the empty-room report, at most once until somebody joins |
| `RoomObjects.RoomLoop.CollectStates` | internal/room/room.go:254-258 | One snapshot of every player, with scores and deaths modulo 65536 |
| `RoomObjects.RoomLoop.AnnounceAll` | internal/room/room.go:261-269 | The loop over the pending events sends hits and deaths in order and clears the marks |
| `RoomObjects.RoomLoop.SettleReason` | internal/room/room.go:284-296 | Due exactly if somebody has reached the score limit or the room the time limit |
| `RoomObjects.RoomLoop.Settle` | internal/room/room.go:272-280 | The settlement is sent once, with everybody's score |
| `RoomObjects.RoomLoop.BroadcastTick` | internal/room/room.go:253-281 | State, then events, then settlement, and the state that leaves behind |
| `RoomObjects.RoomLoop.Tick` | internal/room/room.go:224-230 | One tick of the loop does what the value step says, messages included |
| `RoomObjects.RoomLoop.Handle` | internal/room/room.go:217-250 | One turn of the select loop does what the value step says, for every kind of message |
| `HubInvariant.HubStepAgrees` | internal/gateway/hub.go:379-421 | Every step keeps sessions, online table, lobby list, manager, session tables and the players in the rooms in agreement |
| `HubInvariant.HubRunAgrees` | internal/gateway/hub.go:379-421 | The same over every run |
| `HubInvariant.EnterKeeps` | internal/gateway/hub.go:379-421 | Joining keeps the agreement; it is refused only by a full room that existed before, and then nothing has changed |
| `HubInvariant.UnroutedKeeps` | internal/gateway/hub.go:452-465 | Leaving and disconnecting keep it |
| `HubInvariant.CleanupKeeps` | internal/gateway/hub.go:398-410 | A cleanup keeps it, whether or not somebody came back |
| `HubInvariant.RoomTickKeeps` | internal/room/room.go:318-334 | A tick keeps it: removing players who are offline changes no session, and the report of an empty room starts a cleanup |
| `HubProofs.HubAgreement` | internal/gateway/hub.go:379-421 | On every run a session points at a room exactly when the room's table lists it; such a room is running; the online players of a room are the accounts of its sessions, as many of the ones as of the others, at most eight |
| `HubProofs.TablesInStep` | internal/gateway/rooms.go:18-62 | Lobby list, manager and session tables always name the same rooms, each under its own name |
| `HubProofs.CreateIsNeverRefusedAsFull` | internal/gateway/hub.go:252-257 | The failure branch of create is never taken |
| `HubProofs.AdvertisedIsOnline` | internal/gateway/rooms.go:103-110 | The advertised player count is the number of online players, at most eight |
| `HubProofs.LobbyListSurvives` | internal/gateway/rooms.go:92-117 | The list reaches a client as it is exactly when it has at most 255 rooms and every text fits its length field |
| `HubProofs.IdsAreFresh` | internal/gateway/hub.go:370-375 | Below 2^32 - 1 connections session ids count the connections and the next one is unused |
| `HubProofs.LatchedStep` | internal/gateway/session.go:223-250 | No step changes the account of an open session |
| `HubProofs.IdentityIsLatched` | internal/gateway/session.go:223-283 | A session keeps the account of its first login for as long as it is open |
| `HubLifetime.StepSeen` | internal/gateway/hub.go:379-465 | One step of the hub moves each room by messages of the room loop: its own tick, or messages on behalf of one session in it |
| `HubLifetime.RoomHistory` | internal/room/room.go:422-431 | Every room of a reachable hub is where the room loop is after what the room has seen of the steps of the hub; that begins with a join and the registration of the callback and drains nothing, so all properties of such runs hold of the room |
| `HubLifetime.DeathsAnnouncedInTheHub` | internal/gateway/hub.go:386-396 | In every room of every reachable hub the deaths of each player since joining, the first player of the room included, are the Death messages the room has sent for it, plus one if it died since the last tick |
| `HubLifetime.AbandonedRoomsDisappear` | internal/gateway/hub.go:397-410 | From any reachable state, a room that nobody is in and nobody returns to has, after as many ticks as the grace period, either been removed already or has a cleanup waiting that removes it from all three tables |
| `HubReconnect.SeatKept` | internal/gateway/hub.go:63-73 | A player cut off keeps the seat for exactly the grace period in ticks of the room, while no session of the account is in the room, logged in again or not, whatever everybody else does |
| `HubReconnect.Rejoin` | internal/gateway/hub.go:379-421 | Joining a room in which one's player waits, by a room join or a battle join, succeeds even if the room is full and changes no player but one's own block bar |
| `HubReconnect.ReconnectThroughTheHub` | internal/gateway/hub.go:63-73 | Disconnect, then anything at all for fewer ticks than the grace period, a login of the account on another session at any point of it, then a room join or battle join by name: the join succeeds and every player is as before but for the returning player's block bar |
| `HubRules.EnterRule` | internal/gateway/hub.go:379-421 | Entering by name, table by table: refused exactly by a full room without a place for the account, and then nothing changes; otherwise session, session table, manager and room are as the join says, with the bonus applied, and nothing else different |
| `HubRules.CreateRule` | internal/gateway/hub.go:232-260 | When creation is refused and how; otherwise the room is listed under its creator and note and entered |
| `HubRules.JoinRoomRule` | internal/gateway/hub.go:263-284 | When a room join is refused and how; otherwise the room is entered |
| `HubRules.BattleJoinRule` | internal/gateway/session.go:169-186 | The same for a battle join from outside, which lists an unlisted room without a note |
| `HubRules.LeaveRule` | internal/gateway/hub.go:452-465 | The session is outside, its player gone from the room, and nothing else different |
| `HubRules.DisconnectRule` | internal/gateway/hub.go:63-82 | The session is gone, its account offline, its player in the room marked offline from now on, and nothing else different |
| `HubRules.PlayRule` | internal/gateway/session.go:187-191 | A report goes to the session's own room on behalf of its account, and nowhere else |
| `HubRules.SessionRule` | internal/gateway/session.go:144-255 | A session is told to log in before anything else, keeps the account of its first login and has a second refused; a connection gets the next id, after 2^32 - 1 zero |
| `HubRules.TickAndCleanupRule` | internal/gateway/hub.go:397-410 | A tick reaches its room alone and starts a cleanup when it reports the room empty; a cleanup does nothing while somebody is in the room, and otherwise takes the room out of every table |
| `HubRules.ListShows` | internal/gateway/rooms.go:92-117 | Every listed room is shown under its name with its creator's nickname, its note, the number of players online and eight places |
| `HubObjects.Registry.Add` | internal/gateway/rooms.go:29-37 | Adds a room unless the name is taken |
| `HubObjects.Registry.Remove` | internal/gateway/rooms.go:40-44 | Removes the name |
| `HubObjects.Registry.List` | internal/gateway/rooms.go:55-62 | Every listed name exactly once |
| `HubObjects.Manager.CreateRoom` | internal/room/room.go:422-431 | The room of that name, or a new one in its initial state under that name |
| `HubObjects.Manager.DestroyRoom` | internal/room/room.go:442-449 | The name is free again |
| `HubObjects.Hub.Send` | internal/room/room.go:164-215 | A message handled by one room changes the hub by that room's step and nothing else |
| `HubObjects.Hub.Join` | internal/gateway/hub.go:379-421 | Does what the value step says: room, player, session table, callbacks, session, equipment |
| `HubObjects.Hub.HandleRoomCreate` | internal/gateway/hub.go:232-260 | The handler and its reply, for every body |
| `HubObjects.Hub.HandleRoomJoin` | internal/gateway/hub.go:263-284 | The handler and its reply, for every body |
| `HubObjects.Hub.HandleBattleJoin` | internal/gateway/session.go:169-186 | The handler and its reply, for every body, from inside a room as well |
| `HubObjects.Hub.Leave` | internal/gateway/hub.go:452-465 | Clears the session's room, removes the player and the table entry |
| `HubObjects.Hub.OnDisconnect` | internal/gateway/hub.go:63-82 | Marks the player offline and removes the session from every table |
| `HubObjects.Hub.HandleAuthed` | internal/gateway/session.go:167-199 | Any request of a logged-in session is the value step of that request, with its reply; it keeps the agreement unless it is a battle join from inside a room |
| `HubObjects.Hub.HandleLogin` | internal/gateway/session.go:245-255 | The first login sets the identity and the online table, also if the account is already in use; a second on the same session is refused; the agreement is kept when no other open session has the account |
| `HubObjects.Hub.Connect` | internal/gateway/hub.go:370-375 | A new session under the next id, modulo 2^32 |
| `HubObjects.Hub.RoomTick` | internal/room/room.go:328-333 | One tick of a room, and the start of a cleanup when it finds the room empty for the first time |
| `HubObjects.Hub.Cleanup` | internal/gateway/hub.go:399-409 | Removes the room from every table unless somebody is in it |
| `HubObjects.Hub.BuildRoomListBody` | internal/gateway/rooms.go:92-117 | The bytes of a list that names every listed room once, with creator, note and number of sessions |
| `HubAssumptions.BattleJoinFromInside` | internal/gateway/session.go:169-186 | A battle join from inside a room keeps the agreement if and only if it names that room, or nothing, or a room that is full and has no place for the account; otherwise the session stays behind in the table of its old room |
| `HubAssumptions.SecondLogin` | internal/gateway/session.go:245-255 | A login keeps the agreement if and only if no other open session is logged in to the account |
| `HubAssumptions.DroppedMark` | internal/room/room.go:202-207 | A connection that closes without the room being told keeps the agreement if and only if it was in no room; otherwise its player stays in the room, online and without a session |
| `HubAssumptions.LeftBehindForever` | internal/room/room.go:318-334 | Such a player is never taken out by the room, and the room never reported empty, until a message marks that player offline or removes it |
| `Frames.Encode` | internal/protocol/frame.go:28-36 | The buffer is filled with magic, id, sequence number, body length modulo 2^32 and body |
| `Frames.Connection.ReadFull` | internal/protocol/frame.go:50-50 | Fills the buffer from pieces of any size, or reports whether nothing or something was left |
| `Frames.FrameReader.Next` | internal/protocol/frame.go:49-71 | The next frame, or the reason there is none, is a function of the remaining stream alone, and the stream moves on by exactly that much |
| `Frames.FrameReader.Serve` | internal/gateway/session.go:84-97 | The read loop returns every frame up to the first failure, independent of the pieces in which the stream arrives |
| `Frames.ReadBack` | internal/protocol/frame.go:49-71 | Reading an encoded frame with a body up to 65536 bytes gives that frame and leaves what follows |
| `Frames.WriteBack` | internal/protocol/frame.go:49-71 | An accepted frame re-encodes to exactly the bytes consumed |
| `Frames.AcceptedIsConsumed` | internal/protocol/frame.go:49-71 | All frames accepted from any byte stream re-encode to exactly the prefix that was consumed |
| `Frames.RoundTripExactly` | internal/protocol/frame.go:28-71 | A list of frames is read back followed by a clean end if and only if every body fits the limit |
| `Frames.CutStream` | internal/protocol/frame.go:49-71 | A stream cut anywhere yields exactly the frames that are whole, then a clean end if the cut is between frames or between a header and its body, and an unexpected end otherwise |
| `WireLayout.FrameLayout` | internal/protocol/frame.go:28-36 | Twelve bytes of header, numbers most significant byte first: 0x5344, id, sequence number, length; then the body |
| `WireLayout.FrameReadExactly` | internal/protocol/frame.go:49-71 | A frame is read back if and only if its body has at most 65536 bytes |
| `LobbyWire.PutStr` | internal/protocol/lobby.go:52-56 | Writes a length modulo 65536 and the bytes at the cursor and returns the offset behind them |
| `LobbyWire.TextsExactly` | internal/protocol/lobby.go:58-67 | Strings in a row come back, with the cursor behind them, if and only if each is shorter than 65536 bytes, whatever follows |
| `LobbyWire.CutTexts` | internal/protocol/lobby.go:58-67 | Strings cut short anywhere are refused |
| `LobbyWire.TextsConsumed` | internal/protocol/lobby.go:58-67 | What is accepted is in bounds and is the encoding of what is returned |
| `LobbyWire.EncodeReg` | internal/protocol/lobby.go:103-109 | Fills the buffer with the three strings |
| `LobbyWire.RegExactly` | internal/protocol/lobby.go:112-123 | A registration comes back if and only if its strings fit; every cut one is refused |
| `LobbyWire.EncodeRoomOp` | internal/protocol/lobby.go:321-326 | Fills the buffer with name and note |
| `LobbyWire.RoomOpExactly` | internal/protocol/lobby.go:328-335 | A room request comes back if and only if its strings fit |
| `LobbyWire.EncodeLoginResp` | internal/protocol/lobby.go:126-134 | Fills the buffer with code, token, uid and nickname |
| `LobbyWire.LoginRespExactly` | internal/protocol/lobby.go:137-149 | A login response comes back if and only if its strings fit |
| `LobbyWire.EncodeRoomInfo` | internal/protocol/lobby.go:264-272 | Fills the buffer with three strings and two counts modulo 256 |
| `LobbyWire.DecodeRoomInfo` | internal/protocol/lobby.go:274-291 | An accepted record lies within the bytes |
| `LobbyWire.RoomExactly` | internal/protocol/lobby.go:274-291 | A record comes back if and only if its strings and counts fit, whatever follows |
| `LobbyWire.EncodeRoomList` | internal/protocol/lobby.go:294-300 | The loop appends every record behind the count byte |
| `LobbyWire.DecodeRoomList` | internal/protocol/lobby.go:302-318 | The loop stays in bounds on arbitrary bytes and computes the recursive reading |
| `LobbyWire.RoomListExactly` | internal/protocol/lobby.go:302-318 | A list comes back if and only if it has at most 255 rooms, each of which fits |
| `LobbyWire.CutRoomList` | internal/protocol/lobby.go:302-318 | A list cut short anywhere is refused |
| `WireLayout.TwoTextsLayout` | internal/protocol/lobby.go:321-326 | Room request: two texts one behind the other, each behind its length, most significant byte first |
| `WireLayout.ThreeTextsLayout` | internal/protocol/lobby.go:103-109 | Registration: account, password and nickname in the same way |
| `WireLayout.LoginRespLayout` | internal/protocol/lobby.go:126-134 | Login response: code, token, four bytes of uid, nickname |
| `WireLayout.RoomInfoLayout` | internal/protocol/lobby.go:264-272 | Room record: name, creator, note and the two counts as last bytes |
| `WireLayout.FriendLayout` | internal/protocol/lobby.go:176-184 | Friend record: four bytes of uid, nickname, one byte that is 1 for online |
| `FriendWire.EncodeFriendInfo` | internal/protocol/lobby.go:176-184 | Fills the buffer with uid, nickname and the online byte |
| `FriendWire.FriendExactly` | internal/protocol/lobby.go:192-204 | A record comes back if and only if its nickname fits, whatever follows |
| `FriendWire.CutFriend` | internal/protocol/lobby.go:192-204 | A record without its last byte is read as offline; a shorter one is refused |
| `FriendWire.EncodeFriendList` | internal/protocol/lobby.go:207-214 | The loop appends every record behind the count byte |
| `FriendWire.DecodeFriendList` | internal/protocol/lobby.go:216-233 | The loop computes the recursive reading, including the outcome of stepping past the end |
| `FriendWire.FriendListExactly` | internal/protocol/lobby.go:216-233 | A list comes back if and only if it has at most 255 entries with nicknames that fit |
| `FriendWire.CutFriendList` | internal/protocol/lobby.go:216-233 | The outcome of every cut: whole; last friend offline if only the last byte is missing; past the end if the cut is one byte before the end of an earlier record; refused otherwise |
| `FriendWire.PastTheEndExactly` | internal/protocol/lobby.go:216-233 | For all bytes: the decoder steps past the end if and only if what follows the count is whole records, with any last bytes, and then one without its last byte, and the count promises still more |
| `BattleWire.EncodeState` | internal/protocol/battle.go:85-105 | Fills the buffer with the count and 36 bytes per player |
| `WireLayout.StateLayout` | internal/protocol/battle.go:85-105 | Where every field of every player stands in a state message, numbers most significant byte first |
| `WireLayout.SettleLayout` | internal/protocol/battle.go:208-217 | The same for a settlement |
| `WireLayout.InputLayout` | internal/protocol/battle.go:138-152 | The same for a report, signed moves in two's complement |
| `WireLayout.HitLayout` | internal/protocol/battle.go:175-184 | The same for a hit |
| `WireLayout.ReadsOfAnyLength` | internal/protocol/battle.go:155-197 | Any bytes: too few are a report or hit of zeros, more than needed are ignored, and any last byte of a hit but zero is a headshot |
| `BattleWire.DecodeState` | internal/protocol/battle.go:108-135 | The loop computes the reading of every record, or nil if bytes are missing |
| `BattleWire.StatesCut` | internal/protocol/battle.go:108-135 | Up to 255 states come back from all their bytes, also if more follow, and from no fewer |
| `BattleWire.StatesExactly` | internal/protocol/battle.go:108-135 | A list of states comes back if and only if it has at most 255 entries |
| `BattleWire.EncodeSettle` | internal/protocol/battle.go:208-217 | Fills the buffer with the count and six bytes per entry |
| `BattleWire.DecodeSettle` | internal/protocol/battle.go:220-237 | The loop computes the reading of every entry, or nil if bytes are missing |
| `BattleWire.SettleExactly` | internal/protocol/battle.go:220-237 | A ranking comes back if and only if it has at most 255 entries, and from no fewer bytes |
| `BattleWire.EncodeInput` | internal/protocol/battle.go:138-152 | Fills the 29 bytes of a report |
| `BattleWire.InputExactly` | internal/protocol/battle.go:155-172 | Every report comes back, signs included, and every 29 bytes are the encoding of what they are read as |
| `BattleWire.EncodeHit` | internal/protocol/battle.go:175-184 | Fills the ten bytes of a hit |
| `BattleWire.HitReads` | internal/protocol/battle.go:187-197 | Every hit comes back |
| `BattleWire.BroadcastSurvives` | internal/room/room.go:253-259 | The state broadcast of every reachable room fits a frame, is read from the stream as sent, decodes to exactly its players, each with the room's own position, yaw, health, weapons, block and animation and with scores and deaths modulo 65536, and no part of it decodes |
| `Decimal.ScanUndoesPrint` | internal/store/store.go:147-147 | Scanning a printed pair of 32-bit numbers gives the pair |
| `Decimal.KeysAreUnambiguous` | internal/store/store.go:147-147 | Different pairs have different keys |
| `Friends.StatusHistory` | internal/store/store.go:150-196 | A pair is stored exactly if it was invited and not rejected since, and a friendship exactly if it was also accepted after that |
| `Friends.AnswersByHistory` | internal/store/store.go:162-215 | A request waits exactly if it was made, not rejected since and not accepted after that; a friend is listed once for every direction that was accepted and not rejected since |
| `Friends.StepStores` | internal/store/store.go:335-369 | The table of the SQL store follows the relation, except when an accepted friend is rejected |
| `Friends.StoresAgreeExactly` | internal/store/store.go:38-53 | The two stores give the same answers at every point of a run if and only if no accepted friend is rejected in it |
| `Friends.StoresDiffer` | internal/store/store.go:365-369 | Invite, accept, reject: the SQL store still lists the friend, the in-memory store does not |
| `Accounts.LookupsAgree` | internal/store/store.go:103-134 | After any run every record is found under its account name and its nickname, and under its id exactly if fewer than 2^32 records were made after it |
| `Accounts.RunKeepsKeys` | internal/store/store.go:85-101 | Ids count from 1 and names stay unique on every run |
| `Accounts.RegistrationIsFiled` | internal/store/store.go:85-134 | After any run: if a name is taken nothing changes; otherwise the record exactly as registered is found under its account name, its nickname and the next id, and what is found under any other key is as before |
| `Accounts.EquipmentIsFiled` | internal/store/store.go:136-145 | After any run: the last record with the id has the new equipment and is otherwise as it was, under all its keys; nothing else changes, and nothing at all for an unknown id |
| `Accounts.IdsAreEnoughExactly` | internal/store/store.go:94-99 | Every record of a run is found under its own id if and only if the run made at most 2^32 of them |
| `Accounts.IdsDoRunOut` | internal/store/store.go:94-99 | There is a run after which its first record is not found under its own id |
| `Accounts.IdsGoRound` | internal/store/store.go:94-99 | Account number 2^32 + 1 gets id 1 again and takes it over: the first record is still found by account name and nickname but no longer by id, and an equipment change for id 1 changes the new record alone |
| `MemStores.MemStore.CreateUser` | internal/store/store.go:85-101 | Refuses a taken account name, then a taken nickname; otherwise files one fresh copy in all three indexes under the next id, which the caller's object gets too; a copy filed under the same id before is replaced in that index |
| `MemStores.MemStore.GetUserByAccount` | internal/store/store.go:103-112 | A fresh copy of the record the plain list has under that account name, or not found |
| `MemStores.MemStore.GetUserByNickname` | internal/store/store.go:114-123 | The same by nickname |
| `MemStores.MemStore.GetUserById` | internal/store/store.go:125-134 | The same by id; of several records with that id, the last made |
| `MemStores.MemStore.SetEquip` | internal/store/store.go:136-145 | Changes the object last filed under the id, and no other; all indexes that hold it show the change |
| `MemStores.MemStore.InviteFriend` | internal/store/store.go:150-159 | Adds an open request unless the pair is known |
| `MemStores.MemStore.AcceptFriend` | internal/store/store.go:180-188 | Makes a known pair friends |
| `MemStores.MemStore.RejectFriend` | internal/store/store.go:191-196 | Removes the pair, whatever its status |
| `MemStores.MemStore.PendingFriendIDs` | internal/store/store.go:162-177 | Each open request to the user once, for every iteration order of the map |
| `MemStores.MemStore.FriendIDs` | internal/store/store.go:198-215 | Each accepted pair of the user once, for every iteration order of the map |

## Left out

- 32-bit rounding of floating-point arithmetic, and how accurate sine, cosine and square root are.
- Interleavings of goroutines finer than the steps above, channel buffers and locks. In particular the snapshot and the
  removal inside a cleanup are one step here; at a finer grain a join between the two would be possible.
- TCP connections, the watchdog, the write queue of a session and its policy of dropping old frames, logging.
- Passwords, tokens and their expiry: a login is modelled from the point where the account is known.
- Replies are modelled by their kind; their texts, the pushes of friend and room lists, online notices, nicknames of room
  mates and the snapshot sent with a successful join are not.
- The SQL statements for users and equipment, the connection to the database and collation. The friend statements are
  modelled as operations on a table whose pair of users is a unique key.
- Map and spawn data: walls are any list of boxes with non-negative sizes, spawn points are parameters.
- `SpeedFor`, `EncodeJoinOK`, the bag messages, and messages whose encoding is a single number or string.
- The player table is passed to the combat resolver with each call; in the program both hold the same map.
- The timer of the lock is counted in ticks, 300 to a charge, where the program adds thirtieths of a second.
- Score and death counts are unbounded numbers inside the room; on the wire they are taken modulo 65536.
- The list of players in a state broadcast is a map on values; its order on the wire is any order.
- The second weapon field of a player (`Alt`) is carried along, as in the program, where nothing sets it.
- The offset arithmetic of the program's integers is not bounded: lengths are those of byte sequences in memory.
- HubObjects.Hub.Cleanup: covers running rooms; a cleanup of a stopped room waits for a snapshot that never comes and is
  not a call that returns.
- HubObjects.Hub.Connect: covers ids that no open session has; sessions are identified by their id, so two open ones
  with the same id, possible after 2^32 connections, are not represented.
- RoomDelivery.DeathsAnnounced: does not say that the Death message carries the lethal hit, because it carries the first
  pending hit on the player.
- RoomReconnect.ReconnectInvisible: about the room alone; through the hub a rejoin also refills the block bar, see
  `HubReconnect.ReconnectThroughTheHub`.
