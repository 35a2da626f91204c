# Verified models of the game-server suite

This project models the stateful parts of the login, cluster and world servers in Dafny and proves
what they keep. Each subsystem has a module of values and functions that states the rules and
carries the theorems, and a module of classes whose methods update their fields in place, step by
step as the source does, and are proved against those functions. `dafny verify dfyconfig.toml`
checks everything.

| files | subject |
|---|---|
| LogonLink, LogonEnds, LogonSockets | the encrypted link between login and cluster server: framing, byte order, a stream cipher that turns on in mid-connection, any fragmentation |
| ArathiBasin, ArathiBattle, ArathiNumbers | control points, resource ticks and their redundant copies: owner arrays, counters, timers, displayed fields |
| AlteracValley, AlteracBattle, AlteracNumbers | node states and capture timers, towers, reinforcements, the end of the battle |
| Achievements, AchievementInterface, AchievementMerits | the recursion between earning an achievement and completing those that require it |
| ChainAggro, ChainAggroEntity | the recursion between a pulled creature and its linked group |
| Auctions, AuctionFates, AuctionBids, AuctionMgr | items and money in escrow, deferred deletion, paging |
| QueueFiller, QueuePass, QueueStarts, QueueManager | filling battlegrounds and arenas from the queues |
| Channels, ChannelRequests, ChannelObject, ChannelIndex, ChannelNames, ChannelMgr | owners and bans of a channel; the manager's two indices |
| Realms, RealmRequests, InformationCore | realms, the sockets they registered on, timeouts |
| ArenaRoster, ArenaTeam | arena rosters and the members' pointers back |
| Wrappers | the optional value that the others share |
| Srp | the key agreement of the login socket, sections 2.5.3 and 2.6 of RFC 5054 and section 3.1 of RFC 2945 |

The modules named Numbers, Requests, Bids, Starts, Names and Merits say what single steps do in
numbers and fields, so that the theorems over runs do not rest on the rules' own words.

A handler, timer or update is one atomic step, and a run is any sequence of steps. `Run` starts
from the empty state, or from any state that satisfies the invariant where a server may be started
with stored data. Sends and letters are kept as traces where a theorem speaks of them.

Several promises hold only under a condition. They are stated with it, in both directions, and
with an input that fails where the condition is not a plain guard:

- A bid is lost exactly if it lands on an auction already marked expired (`LostBidIffLate`, `ALateBid`).
- A join by battleground id overfills a side exactly if the player's side is full: the test looks
  at another side, or at none for a game master (`JoinOverfillsIff`, `AJoinThatOverfills`).
- A channel loses its owner exactly if the owner names itself or a non-member (`StepKeeps` of
  `Channels`, `AnOwnerLost`).
- Adding to an arena team keeps rosters and pointers in agreement exactly if the team is full or
  the pointer is null; a charter does not look (`AddIff`, `AddEachIff`, `AnUnsoundCharter`).
- A death resets every counter it should exactly if there is at most one to reset (`AfterDeath`,
  `ACounterSurvives`).
- Marking expired auctions is safe exactly if none was deleted before (`ExpireKeeps`), which the
  order of the two passes ensures.
- Proceeds of 2^31 or more become zero in the signed amount (`SettleBooks`); there
  are none while all money together is less (`RunSends`).

The source's comment that two capture events of a base might clash does not hold of its code: a
pending capture timer always names the assaulting team (`FireCapture`), so the guards in
`CaptureControlPoint` never refuse one.

## Model

| member | source | states |
|---|---|---|
| LogonEnds.LinkDelivers | src/AuthServer/LogonCommServer.cpp:61-110 | in every run, however the bytes are cut into reads, each end has handled a prefix, in order, of what the other sent; with nothing in flight it has handled all of it and both keystream offsets are equal |
| LogonLink.AnyFragmentation | src/ClusterServer/LogonCommClient.cpp:29-77 | delivering bytes in any chunks handles the same packets and leaves the socket in the same state as delivering them at once |
| LogonLink.Resume | src/AuthServer/LogonCommServer.cpp:61-110 | stopping in the middle of a header or body and going on later loses nothing and decrypts no header twice |
| LogonLink.ReceiveOne | src/ClusterServer/LogonCommClient.cpp:167-195 | a waiting receiver aligned with the sender handles exactly the packet that was printed, zero-length bodies included, and is aligned again |
| LogonLink.HeaderDecrypts | src/AuthServer/LogonCommServer.cpp:75-80 | a header encrypted in one run of the engine is decrypted by the receiver's two runs over opcode and length |
| LogonLink.SwapTwice | src/AuthServer/LogonCommServer.cpp:17 | byte-swapping a 32-bit length turns its four bytes round, is its own inverse and stays within 32 bits |
| LogonLink.HeaderBytes | src/ClusterServer/LogonCommClient.cpp:173-178 | every header is the opcode, low byte first, and the length of the body, high byte first, in numbers |
| LogonLink.HeaderMeans | src/ClusterServer/LogonCommClient.cpp:33-52 | from any six bytes, each decrypted with the keystream byte of its own place, a receiver takes just that opcode and that length and leaves the rest in the buffer |
| LogonLink.WireBytes | src/ClusterServer/LogonCommClient.cpp:180-195 | every byte of header and body goes out under the keystream byte of its own place |
| LogonLink.XorBits | src/ClusterServer/LogonCommClient.cpp:180-190 | encryption flips exactly the bits that the keystream sets |
| LogonEnds.RunKeeps | src/AuthServer/LogonCommServer.cpp:243-275 | the invariant of both ends over every run: once it has read what is in flight each receiver has handled everything sent and stands at the sender's offset |
| LogonEnds.CryptoAfter | src/AuthServer/LogonCommServer.cpp:287-317 | the server decrypts from exactly the packet after the challenge on |
| LogonEnds.DroppedIffWrongKey | src/AuthServer/LogonCommServer.cpp:112-152 | a peer is dropped exactly if its key is wrong and it sent something after its challenge; it counts as authenticated exactly if its key is right |
| LogonEnds.AnswerIs | src/AuthServer/LogonCommServer.cpp:287-317 | a challenge is answered with 1 or 0 in the low byte of 32 bits, by comparing 20 bytes, zeros if they are missing |
| LogonEnds.ClientLearns | src/ClusterServer/LogonCommClient.cpp:232-250 | in every run the first packet the client gets is that answer, and it knows from then on whether its key was right, if no other packet carries the opcode |
| LogonSockets.LinkSocket.OnRead | src/AuthServer/LogonCommServer.cpp:61-110 | the loop, decrypting and handling as it goes, leaves the socket as reading everything first and handling it afterwards |
| LogonSockets.LinkSocket.SendPacket | src/ClusterServer/LogonCommClient.cpp:167-195 | six bytes and the body are pushed, in the clear the opcode with its low byte first and the length with its high byte first, and the sending engine runs over just these if they are encrypted |
| LogonSockets.LinkSocket.SendChallenge | src/ClusterServer/LogonCommClient.cpp:211-230 | both engines start over with the key, the challenge itself goes out in the clear |
| LogonSockets.LinkSocket.HandleAuthChallenge | src/AuthServer/LogonCommServer.cpp:287-317 | the engines are set up, the answer goes out encrypted, and its value is the result of comparing the key |
| LogonSockets.LinkSocket.TakeHeader | src/ClusterServer/LogonCommClient.cpp:33-52 | six bytes leave the buffer and become an opcode and a length |
| ArathiBasinModel.RunKeeps | src/WorldServer/ArathiBasin.cpp:475-563 | in every run an assaulting team was not the last owner, resources are at most 1600, payouts are exactly floor(resources / step), and the battle is over exactly when one team, not the loser, has 1600 |
| ArathiBasinModel.GiveResourcesKeeps | src/WorldServer/ArathiBasin.cpp:485-507 | a resource tick keeps payouts equal to floor(resources / step) although it pays at most once |
| ArathiBasinModel.Monotone | src/WorldServer/ArathiBasin.cpp:475-507 | resources and payouts never decrease and no step pays a team twice |
| ArathiBasinModel.TouchedForever | src/WorldServer/ArathiBasin.cpp:786-791 | a base once assaulted is never neutral again |
| ArathiBasinModel.CountBound | src/WorldServer/ArathiBasin.cpp:745-754 | the two teams never count more bases than there are |
| ArathiBattle.ArathiBasin.constructor | src/WorldServer/ArathiBasin.cpp:393-430 | the initial arrays, events and displayed fields agree with each other |
| ArathiBattle.ArathiBasin.AssaultControlPoint | src/WorldServer/ArathiBasin.cpp:770-882 | after any assault owner arrays, base counts, pending events and displayed fields agree again with the bases, which change by the rule of assaults |
| ArathiBattle.ArathiBasin.CaptureControlPoint | src/WorldServer/ArathiBasin.cpp:709-768 | a base passes to the team that assaults it with every copy repaired, and nothing at all changes for any other team |
| ArathiBattle.ArathiBasin.FireCapture | src/WorldServer/ArathiBasin.cpp:871-877 | a pending capture timer always names the team that is assaulting, which then owns the base |
| ArathiBattle.ArathiBasin.EventUpdateResources | src/WorldServer/ArathiBasin.cpp:475-563 | a due resource event keeps all copies in agreement, honors exactly when the payout count goes up, and at 1600 ends the battle with no event left |
| ArathiBattle.EventsTaken | src/WorldServer/ArathiBasin.cpp:756-767 | gaining a base leaves a team's resource event pending exactly once with the interval of its new count |
| ArathiBattle.EventsLost | src/WorldServer/ArathiBasin.cpp:828-832 | losing a base removes the resource event with the last one and slows it down otherwise |
| ArathiBattle.FieldsTaken | src/WorldServer/ArathiBasin.cpp:745-754 | the fields written on a capture are all that needed changing: each is 1 exactly when its condition holds |
| ArathiBattle.FieldsLost | src/WorldServer/ArathiBasin.cpp:821-826 | likewise for the fields written when an owner loses a base |
| ArathiBattle.TakenAgrees | src/WorldServer/ArathiBasin.cpp:725-767 | all copies together after a capture |
| ArathiBattle.LostAgrees | src/WorldServer/ArathiBasin.cpp:795-833 | all copies but those of the assault after an owner has lost a base |
| ArathiBattle.ArraysInAgreement | src/WorldServer/ArathiBasin.cpp:709-723 | no base is both owned and assaulted, a base once owned is exactly one of the two, and an assaulting team was not the last owner |
| ArathiBattle.CountersInAgreement | src/WorldServer/ArathiBasin.cpp:744-767 | each base counter is the number of bases the owner array gives the team, and its resource event is pending exactly if that is not zero, every 12, 9, 6, 3 or 1 seconds by that number |
| ArathiBattle.TimersInAgreement | src/WorldServer/ArathiBasin.cpp:848-877 | a capture timer of 60 seconds is pending exactly if the base is assaulted, and names that team |
| ArathiBattle.FieldsInAgreement | src/WorldServer/ArathiBasin.cpp:745-754 | every displayed field is the function of the arrays that its condition says |
| ArathiNumbers.ResourcesAre | src/WorldServer/ArathiBasin.cpp:475-507 | a due resource event adds 10 points with one to four bases and 30 with five, up to 1600, moves the mark of the last honor to the multiple of 330, or 200 on a holiday weekend, and ends the battle at 1600 |
| ArathiNumbers.TickIs | src/WorldServer/ArathiBasin.cpp:475-507 | the same of the battle without its copies, and that the payouts are those multiples |
| ArathiNumbers.AssaultIs | src/WorldServer/ArathiBasin.cpp:770-882 | in the arrays: the last owner of a base has it back at once, any other team assaults it, all last owners and all other bases stay |
| ArathiNumbers.CaptureIs | src/WorldServer/ArathiBasin.cpp:725-754 | a due capture timer makes the assaulting team the owner and the last owner and touches no other base |
| ArathiNumbers.ScoresInEveryRun | src/WorldServer/ArathiBasin.cpp:475-507 | in every run payouts are floor(resources / 330), or 200, and there is a loser exactly if a team has 1600 |
| AlteracValleyModel.NodesInEveryRun | src/WorldServer/AlteracValley.cpp:947-985 | in every run a capture timer is pending only while the node is assaulted and, until the end, whenever it is; a node is destroyed exactly when it is a tower its enemy controls |
| AlteracValleyModel.NodesFollowTheRules | src/WorldServer/AlteracValley.cpp:961-985 | until the end each node follows rules in which the only team that gets it back at once is the one whose control the assault interrupted |
| AlteracValleyModel.Forever | src/WorldServer/AlteracValley.cpp:1304-1304 | a destroyed tower never changes again and a recorded loser stays |
| AlteracValleyModel.ReinforcementsInEveryRun | src/WorldServer/AlteracValley.cpp:1580-1595 | a team's reinforcements are max(0, 600 - weighted count of its deaths, captains, generals and lost towers), in any order; there is a loser exactly when a team is at zero, and the loser is |
| AlteracValleyModel.StepKeepsNode | src/WorldServer/AlteracValley.cpp:1254-1304 | what one event keeps and does to a node |
| AlteracValleyModel.CaptureFollows | src/WorldServer/AlteracValley.cpp:1264-1304 | a captured node belongs to the team that assaulted it, keeps the invariant and lets no second loser in |
| AlteracValleyModel.StepToll | src/WorldServer/AlteracValley.cpp:1338-1342 | every event costs a team its weight and each lost tower 75, once |
| AlteracValleyModel.AssaultCost | src/WorldServer/AlteracValley.cpp:961-985 | no assault, instant return included, costs reinforcements or loses a tower |
| AlteracNumbers.LeftInEveryRun | src/WorldServer/AlteracValley.cpp:1580-1595 | in every run a team has 600 less one for each death, 100 for each captain, 600 for each general and 75 for each of its towers in enemy hands, or none |
| AlteracNumbers.TowersInEveryRun | src/WorldServer/AlteracValley.cpp:1264-1304 | in every run nodes 9 to 12 are destroyed exactly when the Horde holds them, 13 to 16 when the Alliance does, the others never |
| AlteracNumbers.StartIs | src/WorldServer/AlteracValley.cpp:888-897 | who holds which node at the start |
| AlteracBattle.AlteracValley.Assault | src/WorldServer/AlteracValley.cpp:947-985 | the object's steps are those of the model and keep its node invariant |
| AlteracBattle.AlteracValley.Capture | src/WorldServer/AlteracValley.cpp:1264-1355 | the object's steps are those of the model, down to the end of the battle |
| AlteracBattle.AlteracValley.RemoveReinforcements | src/WorldServer/AlteracValley.cpp:1580-1595 | clamps at zero and finishes the battle at zero |
| AlteracBattle.AlteracValley.Finish | src/WorldServer/AlteracValley.cpp:1639-1646 | takes effect once: the first loser stays and all events go |
| AlteracBattle.AlteracValley.HookOnUnitKill | src/WorldServer/AlteracValley.cpp:1606-1637 | a general costs 600, a captain 100, of the victim's own team |
| Achievements.RunKeeps | src/WorldServer/AchievementInterface.cpp:220-261 | over every run of kills, deaths and group changes no player earns an achievement twice, no Realm First has two owners, and nothing tracked that leaves grouping aside could be completed but is not |
| Achievements.EarnOutcome | src/WorldServer/AchievementInterface.cpp:220-261 | the mutual recursion ends and leaves behind nothing that could be completed because of it; the new Realm Firsts are exactly those inserted |
| Achievements.RequiringOutcome | src/WorldServer/AchievementInterface.cpp:581-620 | the same of the handler that visits the achievements requiring one |
| Achievements.VisitOutcome | src/WorldServer/AchievementInterface.cpp:598-617 | the same of one criterion, also when the achievement is tracked for the first time or has no criteria |
| Achievements.OpenShrinks | src/WorldServer/AchievementInterface.cpp:220-222 | the measure: completing an achievement leaves fewer uncompleted |
| Achievements.AfterDeath | src/WorldServer/AchievementInterface.cpp:426-454 | after a death no achievement that had a counter to lose can be completed; all such counters are zero exactly if at most one was not, because the loop stops at the first |
| Achievements.DieOutcome | src/WorldServer/AchievementInterface.cpp:426-454 | a death makes nothing completable and completes nothing |
| AchievementHandlers.AchievementInterface.CanCompleteAchievement | src/WorldServer/AchievementInterface.cpp:291-354 | true exactly if, by the fields, every counter has moved, no criterion forbids the group, the faction fits, each required criterion has its count in time and of those that replace one another one has |
| Achievements.CanCompleteMeans | src/WorldServer/AchievementInterface.cpp:291-354 | the flags of the two loops, which judge time and faction at every criterion, come to that condition on the achievement as a whole |
| AchievementMerits.EarnedIffDeserved | src/WorldServer/AchievementInterface.cpp:291-354 | in every run what was earned had its counts, its time and its faction when it was earned and still shows them; and nothing tracked that is free and has them is left unearned |
| AchievementMerits.EarnMerits | src/WorldServer/AchievementInterface.cpp:220-261 | the same through the whole recursion of earning |
| AchievementMerits.KillingCounts | src/WorldServer/AchievementInterface.cpp:456-497 | a kill counts once for each criterion asking for that creature, and beyond that only what the achievements earned by it count |
| AchievementMerits.DeathResets | src/WorldServer/AchievementInterface.cpp:426-454 | a death zeroes, in each uncompleted achievement, exactly the first counter that moved and does not survive a death |
| AchievementHandlers.AchievementInterface.EventAchievementEarned | src/WorldServer/AchievementInterface.cpp:220-261 | the in-place recursion over progress and the shared set of Realm Firsts terminates and does what the model does |
| AchievementHandlers.AchievementInterface.HandleRequiresAchievement | src/WorldServer/AchievementInterface.cpp:581-620 | its loop, which the recursion re-enters, does what the model does |
| AchievementHandlers.AchievementInterface.HandleKillCreature | src/WorldServer/AchievementInterface.cpp:456-497 | its loop does what the model does |
| AchievementHandlers.AchievementInterface.HandleDeath | src/WorldServer/AchievementInterface.cpp:426-454 | every uncompleted achievement loses its first mortal counter and no other |
| AchievementHandlers.AchievementInterface.GetAchievementData | src/WorldServer/AchievementInterface.cpp:380-393 | an unknown achievement starts with zero counters, a known one is untouched |
| Achievements.EarnCounts | src/WorldServer/AchievementInterface.cpp:581-620 | earning counts, modulo 2^32, exactly once for each criterion that requires an achievement earned in the cascade, at every position of every achievement still uncompleted |
| Achievements.VisitCounts | src/WorldServer/AchievementInterface.cpp:607-617 | the same of one criterion, at its first position in the achievement's list |
| Achievements.ACounterSurvives | src/WorldServer/AchievementInterface.cpp:440-450 | a second counter that should be lost survives a death |
| ChainAggro.ChainIsCalled | src/WorldServer/ChainAggroEntity.cpp:46-59 | the recursion, in which each woken creature calls the whole group again, comes to a simple form: every member that reacts is hit once for each one woken and once more from the loop's position on |
| ChainAggro.AfterPull | src/WorldServer/AIInterface.cpp:1107-1127 | after a pull every member that is alive, not evading and not fleeing has the target on its list, sleepers are attacking, and for every unit its threat is, for each of the sleepers, the unit's share of one point's threat, and for the pulled one that of the damage's, on top of what it was, or of nothing if it slept; amounts are in hundredths, rounded towards the damage |
| ChainAggro.ThreatIs | src/WorldServer/AIInterface.cpp:3137-3162 | the threat of an attack in numbers: none from a friend, the damage without a modifier, otherwise damage and percentage with the fraction dropped towards the damage |
| ChainAggro.ThreatGrows | src/WorldServer/AIInterface.cpp:3137-3162 | more damage never makes less threat |
| ChainAggro.SleepersCount | src/WorldServer/AIInterface.cpp:1119-1124 | how often a group calls: once for each living member that idles or follows and neither flees nor is the target |
| ChainAggro.ReactsIff | src/WorldServer/AIInterface.cpp:1107-1118 | nothing changes unless the creature and the other one live and it neither evades nor flees; otherwise it hates the other one |
| ChainAggro.SleepersTurn | src/WorldServer/AIInterface.cpp:2877-2958 | a member that slept turns to the puller, unless taunted, once threat and modifier exceed zero, and hates nobody else |
| ChainAggroObjects.AloneThreat | src/WorldServer/AIInterface.cpp:1107-1127 | the threat in numbers for a creature without a group |
| ChainAggro.Pull | src/WorldServer/AIInterface.cpp:1107-1127 | what AttackReaction leaves in every case: awake, unseen game master, or the whole group called |
| ChainAggro.HitsThreat | src/WorldServer/AIInterface.cpp:2877-2958 | threat adds up to the number of hits times each unit's share, the target's or the one's that the rest is redirected to |
| ChainAggro.SleepersUpdate | src/WorldServer/AIInterface.cpp:1119-1124 | the measure: waking a creature leaves one fewer to wake |
| ChainAggro.Bounded | src/WorldServer/AIInterface.cpp:3137-3162 | threat is never negative for modifiers of -100 or more, rounding included |
| ChainAggroObjects.AIInterface.AttackReaction | src/WorldServer/AIInterface.cpp:1107-1127 | the objects calling one another leave exactly the model's group |
| ChainAggroObjects.AIInterface.HandleEnterCombat | src/WorldServer/AIInterface.cpp:173-227 | the creature is attacking before it calls its group |
| ChainAggroObjects.AIInterface.ModThreat | src/WorldServer/AIInterface.cpp:2877-2958 | a hit, with the redirected part going to the other unit if it is reachable |
| ChainAggroObjects.AIInterface.GetMostHated | src/WorldServer/AIInterface.cpp:2790-2830 | finds a valid target of greatest threat not below zero, or none if there is none, and forgets exactly the invalid ones |
| ChainAggroObjects.ChainAggroEntity.EventEnterCombat | src/WorldServer/ChainAggroEntity.cpp:46-59 | the loop over the members with the calls they make back |
| ChainAggroObjects.ChainAggroEntity.AddAggroEntity | src/WorldServer/ChainAggroEntity.cpp:18-22 | the member points back at the group and is in it once |
| ChainAggroObjects.ChainAggroEntity.RemoveAggroEntity | src/WorldServer/ChainAggroEntity.cpp:24-34 | the member is gone with its pointer, the others keep their order, and the last one deletes the group |
| Auctions.MoneyConserved | src/WorldServer/AuctionHouse.cpp:371-433 | over every run purses, letters, standing bids, deposits and the booked losses add up to the same total |
| Auctions.ExpireKeeps | src/WorldServer/AuctionHouse.cpp:74-101 | marking expired auctions keeps each deleted one in the list once exactly if none of them was deleted before, hence the order in which the manager calls |
| Auctions.StepKeeps | src/WorldServer/AuctionMgr.cpp:60-74 | every request and update keeps the removal list equal to the deleted auctions, each once |
| Auctions.SettleMoney | src/WorldServer/AuctionHouse.cpp:129-193 | removing an auction moves all it held to purses, letters and books |
| Auctions.HouseMoney | src/WorldServer/AuctionHouse.cpp:57-72 | draining a queue moves what its auctions held and nothing else |
| Auctions.BidMoney | src/WorldServer/AuctionHouse.cpp:371-433 | a bid moves the price from the purse to the auction and the earlier bid to a letter |
| AuctionFates.ItemsInEveryRun | src/WorldServer/AuctionHouse.cpp:57-101 | over every run each auction ever created is listed in exactly one house or had its item mailed exactly once, never both |
| AuctionFates.PassDelivers | src/WorldServer/AuctionMgr.cpp:60-74 | a pass mails the item of each deleted auction to the highest bidder if it was won and to the owner otherwise, and unlists it |
| AuctionFates.LostBidIffLate | src/WorldServer/AuctionHouse.cpp:371-433 | a bid is lost, now or at the next pass, exactly if it landed on an auction already marked expired |
| AuctionFates.MoneyDrop | src/WorldServer/AuctionHouse.cpp:129-193 | players' money never grows, and without late bids drops exactly by cuts, forfeited deposits and proceeds too large for a signed amount, of which there are none with less than 2^31 in all |
| AuctionFates.SettleBooks | src/WorldServer/AuctionHouse.cpp:153-193 | a removal books a stray bid exactly if the bid was late, and truncates proceeds exactly from 2^31 on |
| AuctionFates.StepStray | src/WorldServer/AuctionHouse.cpp:371-433 | of all events only a late bid dooms an auction |
| AuctionFates.SendAuctionList | src/WorldServer/AuctionHouse.cpp:650-663 | the counter-driven loop sends exactly the matches whose rank is on the page and reports one more than there are |
| AuctionFates.PagesPartition | src/WorldServer/AuctionHouse.cpp:650-663 | every match is on exactly one of the pages that start at multiples of 50: the one of its rank divided by 50 |
| AuctionObjects.AuctionHouse.QueueDeletion | src/WorldServer/AuctionHouse.cpp:45-55 | an auction already deleted keeps its reason |
| AuctionObjects.AuctionHouse.RemoveAuction | src/WorldServer/AuctionHouse.cpp:129-212 | letters, purses and books of one removal, and the auction gone from the map |
| AuctionObjects.AuctionHouse.UpdateDeletionQueue | src/WorldServer/AuctionHouse.cpp:57-72 | exactly the queued auctions leave, settled in order |
| AuctionObjects.AuctionHouse.UpdateAuctions | src/WorldServer/AuctionHouse.cpp:74-101 | exactly the auctions whose time is over are marked and queued |
| AuctionObjects.AuctionMgr.Update | src/WorldServer/AuctionMgr.cpp:60-74 | every 100th call drains each house before, every 1200th, marking it |
| AuctionObjects.AuctionMgr.PlaceBid | src/WorldServer/AuctionHouse.cpp:371-433 | exactly a bid of another player that has the price and offers at least the standing bid, or the buyout, is taken: the price leaves the purse and the auction carries bidder and price; it is not asked whether the auction is deleted |
| AuctionBids.BidIff | src/WorldServer/AuctionHouse.cpp:384-428 | in fields, both ways: when a bid changes anything, and everything it changes, the refund of the bidder before and the close at the buyout included |
| AuctionBids.PricesRise | src/WorldServer/AuctionHouse.cpp:391-392 | in every run the terms of a listed auction stay and its price never falls, unless it is bought out for less, and then not below the buyout |
| AuctionBids.UpdateMeans | src/WorldServer/AuctionMgr.cpp:60-74 | every 100th update unlists the deleted auctions, every 1200th marks those whose time is over, as won if there is a bidder; no other changes |
| AuctionBids.SaleIff | src/WorldServer/AuctionHouse.cpp:464-551 | when a sale is taken and everything it changes |
| AuctionBids.CancelIff | src/WorldServer/AuctionHouse.cpp:435-462 | when a cancellation changes anything, and what |
| AuctionFates.CutIs | src/WorldServer/AuctionHouse.cpp:153-163 | the cut is the whole part of the house's percentage of the bid |
| AuctionFates.MatchesCount | src/WorldServer/AuctionHouse.cpp:645-661 | the count reported is that of the matches |
| AuctionObjects.AuctionMgr.SellItem | src/WorldServer/AuctionHouse.cpp:464-551 | a new id, the deposit taken, no bidder yet |
| AuctionObjects.AuctionMgr.CancelAuction | src/WorldServer/AuctionHouse.cpp:435-462 | queues the auction whoever asks |
| AuctionFates.WinnerBidLast | src/WorldServer/AuctionHouse.cpp:395-428 | in every run the highest bidder of a listed auction is the player whose bid was accepted last, at that price |
| AuctionFates.BidKeepsStakes | src/WorldServer/AuctionHouse.cpp:395-405 | a bid leaves every player's purse, letters and standing bids together as they were: whoever is outbid has everything back |
| AuctionFates.SettleStakes | src/WorldServer/AuctionHouse.cpp:129-193 | what a removal brings each player, in numbers: the owner of a sale bid and deposit less the percentage, or nothing from 2^31 on, a cancelled auction's bidder the bid and its owner the loss of the percentage if online and able to pay, anybody else nothing |
| AuctionFates.ALateBid | src/WorldServer/AuctionHouse.cpp:395-400 | a run of a sale, an update past its time and a bid in which the bid is late and will be lost |
| AuctionFates.RunSends | src/WorldServer/AuctionHouse.cpp:160-163 | with less than 2^31 in all no proceeds are lost to the signed amount |
| QueueFiller.PairsAreSides | src/WorldServer/BattlegroundMgr.cpp:582-599 | seating in pairs and then each side comes to seating each side by itself |
| QueueFiller.ExistingOutcome | src/WorldServer/BattlegroundMgr.cpp:556-601 | no battleground is overfilled, each line keeps its last ones, whoever left a line is asked somewhere, and nobody waits while an open battleground that existed has room |
| QueueFiller.SideSeats | src/WorldServer/BattlegroundMgr.cpp:465-475 | the first ones of the line are asked and taken off the queue, the others still wait in order |
| QueueFiller.SideFills | src/WorldServer/BattlegroundMgr.h:325-331 | a side is filled to its capacity and not beyond, and its line waits only if it is full |
| QueueFiller.FillArenaFills | src/WorldServer/Arenas.h:60-70 | taking the smaller side again and again overfills neither, and somebody waits only if the arena is started or full |
| QueueFiller.FillArenaSeats | src/WorldServer/BattlegroundMgr.cpp:568-579 | the same line order for arenas |
| QueueFiller.GetFreeTeam | src/WorldServer/Arenas.h:60-70 | the side returned has room and is not the larger; none is returned exactly if the arena is started or full |
| QueuePass.PassOutcome | src/WorldServer/BattlegroundMgr.cpp:477-676 | a whole pass overfills a side exactly if an entry asking for a battleground by its id does; those left are the last of their line and wait only if every battleground of the level that has not ended is full, seat by seat; and the queue left is that of the entries that stay, in order, without exactly those that left a line |
| QueueStarts.PassCreates | src/WorldServer/BattlegroundMgr.cpp:603-673 | a pass adds exactly one battleground if the lines that the existing ones leave reach the minimum, the first of an arena and both otherwise, or a start is forced and somebody waits, and one may be and is made; otherwise none |
| QueueStarts.PassSeats | src/WorldServer/BattlegroundMgr.cpp:611-671 | the new one asks the first of each line as far as its seats go, unforced no more than the shorter line has, and an arena until it is full |
| QueueStarts.SeatedCount | src/WorldServer/BattlegroundMgr.cpp:652-671 | how many that is for a side that starts empty when nobody stands in line twice |
| QueueStarts.PairsSeated | src/WorldServer/BattlegroundMgr.cpp:664-669 | the loop in pairs, side by side, whatever the two sides have free |
| QueueStarts.FateIs | src/WorldServer/BattlegroundMgr.cpp:502-554 | what becomes of each entry, by the player's level, slot, wish and side |
| QueueStarts.ErasesFirst | src/WorldServer/BattlegroundMgr.cpp:338-348 | erasing takes out the first occurrence and nothing else |
| QueueStarts.OverfillsIff | src/WorldServer/BattlegroundMgr.cpp:540-545 | in seats: a join passes the capacity exactly if the side the player is put on is full, which takes a game master or a player counted on the other side |
| QueuePass.JoinOverfillsIff | src/WorldServer/BattlegroundMgr.cpp:540-545 | a join by id, which a started arena refuses (Arenas.h:42-48), passes the capacity exactly if the side the player is put on is full, which the test of the other side does not see |
| QueuePass.AJoinThatOverfills | src/WorldServer/BattlegroundMgr.cpp:2058-2061 | such a join exists without a game master |
| QueuePass.SortWithinIff | src/WorldServer/BattlegroundMgr.cpp:501-554 | sorting the queue keeps capacities exactly if no such entry is in it |
| QueuePass.SaneNeverOverfills | src/WorldServer/BattlegroundMgr.cpp:540-545 | none is, if those who ask by id are counted on their own side |
| QueuePass.PairsOutcome | src/WorldServer/BattlegroundMgr.cpp:664-669 | the pairs seated in a new battleground are the first of each line |
| QueuePass.FillNewOutcome | src/WorldServer/BattlegroundMgr.cpp:603-673 | a new battleground is not overfilled and takes the first of each line |
| QueuePass.GetLevelGrouping | src/WorldServer/BattlegroundMgr.h:104-124 | the chain of comparisons is the level divided by ten, at most 8 |
| QueueObjects.Manager.UpdateQueue | src/WorldServer/BattlegroundMgr.cpp:477-676 | the nested loops over queue, lines and battlegrounds terminate and do one pass, which opens and fills as PassCreates and PassSeats say |
| QueueObjects.Manager.FillBattleground | src/WorldServer/BattlegroundMgr.cpp:582-599 | the loops popping both lines |
| QueueObjects.Manager.FillArena | src/WorldServer/BattlegroundMgr.cpp:567-579 | the loop over GetFreeTeam |
| QueueObjects.Manager.SortQueue | src/WorldServer/BattlegroundMgr.cpp:501-554 | erasing from the queue while iterating over it keeps exactly the entries that stay |
| QueueObjects.Manager.ErasePlayer | src/WorldServer/BattlegroundMgr.cpp:338-348 | the first occurrence goes |
| QueueObjects.Manager.Create | src/WorldServer/BattlegroundMgr.cpp:603-673 | one battleground more exactly if the lines reach the minimum, or a start is forced and somebody waits, and it can be made; everybody off the queue if it cannot be made |
| QueuePass.SortLines | src/WorldServer/BattlegroundMgr.cpp:501-554 | a line is the queue without those who do not wait in it, in the queue's order |
| QueuePass.PassErases | src/WorldServer/BattlegroundMgr.cpp:477-673 | erasing while seating, in whatever order sides and battlegrounds are filled, leaves the entries that stay without exactly those that left a line |
| QueuePass.SortStaying | src/WorldServer/BattlegroundMgr.cpp:501-554 | an entry stays exactly if its player is there and of the level group and, where it uses a slot of the type, is still queued and has not joined by id |
| QueuePass.EraseAllIsOthers | src/WorldServer/BattlegroundMgr.cpp:338-348 | with nobody queued twice erasing leaves exactly the others, in their order |
| QueueFiller.ErasedTwice | src/WorldServer/BattlegroundMgr.cpp:582-599 | what two fillings erase is what each erases, because erasing different players commutes |
| Channels.ChatInEveryRun | src/ClusterServer/Channel.cpp:80-272 | in every run at most one owner, none in a general channel, no banned member; a channel with members is without owner exactly if the ownership was given away to nobody since it was last empty |
| Channels.StepKeeps | src/ClusterServer/Channel.cpp:203-272 | the only request that leaves a channel headless is an owner naming itself or a non-member |
| Channels.LeaveKeeps | src/ClusterServer/Channel.cpp:141-171 | when the owner goes there is exactly one owner again if anybody is left |
| Channels.FirstInherits | src/ClusterServer/Channel.cpp:227-249 | and it is the first member in the map's order |
| Channels.ReassignSome | src/ClusterServer/Channel.cpp:250-272 | naming a target leaves exactly one owner if it is a member that was not the owner, and none otherwise |
| Channels.ReassignNone | src/ClusterServer/Channel.cpp:227-249 | without a target exactly one non-owner takes the flag, if there is one and none has it yet |
| ChannelObjects.Channel.AttemptJoin | src/ClusterServer/Channel.cpp:80-139 | the guards in order, and who joins as owner or moderator |
| ChannelObjects.Channel.Part | src/ClusterServer/Channel.cpp:141-201 | the erase, the new owner, and the removal when the channel empties |
| ChannelObjects.Channel.SetOwner | src/ClusterServer/Channel.cpp:203-272 | the request as the model states it, keeping the invariant |
| ChannelObjects.Channel.Reassign | src/ClusterServer/Channel.cpp:227-272 | the loop that changes flags in place leaves the members the recursive rule gives |
| ChannelObjects.Channel.Kick | src/ClusterServer/Channel.cpp:401-452 | the erase, the new owner and the ban; a channel emptied so is not removed |
| ChannelObjects.Channel.Unban | src/ClusterServer/Channel.cpp:454-484 | only a ruling member lifts a ban |
| ChannelObjects.Channel.SetPower | src/ClusterServer/Channel.cpp:486-682 | a flag of a member changes, never the owner's |
| ChannelRequests.JoinIs | src/ClusterServer/Channel.cpp:80-139 | who is refused, and that otherwise there is just one member more, with which flags |
| ChannelRequests.PartIs | src/ClusterServer/Channel.cpp:141-201 | exactly that member goes, the others keep their flags but for the owner's, and the channel goes with the last |
| ChannelRequests.KickIs | src/ClusterServer/Channel.cpp:401-452 | exactly a ruling member takes out a member, who is banned exactly if asked for |
| ChannelRequests.UnbanIs | src/ClusterServer/Channel.cpp:454-484 | exactly a ruling member lifts exactly that ban |
| ChannelRequests.PowerIs | src/ClusterServer/Channel.cpp:486-682 | exactly a ruling member sets exactly one flag of one member |
| ChannelRequests.HandOverIs | src/ClusterServer/Channel.cpp:203-272 | exactly the owner hands over: the target is the owner afterwards if it is another member, and nobody else is |
| ChannelIndex.IndicesInEveryRun | src/ClusterServer/Channel.cpp:833-951 | in every run name lists and id map hold the same channels, no list has two names that differ by case only, and each channel is in the list its removal searches |
| ChannelIndex.IdsNotReused | src/ClusterServer/Channel.cpp:865-868 | an id that was dropped is never given out again |
| ChannelIndex.RoundTrip | src/ClusterServer/Channel.cpp:873-906 | from an id to its name in any case and back to the id |
| ChannelIndex.FoundIsIndexed | src/ClusterServer/Channel.cpp:908-927 | what a name finds is in the id map under that name and team |
| ChannelIndex.CreateKeeps | src/ClusterServer/Channel.cpp:833-871 | a name is refused exactly if it is new and begins like a banned one; otherwise it is found afterwards, under a new id if it was new |
| ChannelIndex.RemoveKeeps | src/ClusterServer/Channel.cpp:929-951 | a channel leaves both indices and nothing else does |
| ChannelNames.GetCreateIs | src/ClusterServer/Channel.cpp:833-871 | which list is searched and written, when the channel is found, refused or made, and under which id, team and name |
| ChannelNames.SameNameIff | src/ClusterServer/Channel.cpp:845-846 | names are alike if they differ in the case of Latin letters only |
| ChannelNames.BannedIff | src/ClusterServer/Channel.cpp:852-862 | a name is banned if it begins like a banned word in whatever case |
| ChannelMgrObjects.ChannelMgr.GetCreateChannel | src/ClusterServer/Channel.cpp:833-871 | the searches and insertions of the manager |
| ChannelMgrObjects.ChannelMgr.GetChannel | src/ClusterServer/Channel.cpp:908-927 | the search by name and team |
| ChannelMgrObjects.ChannelMgr.RemoveChannel | src/ClusterServer/Channel.cpp:929-951 | the erasure from both indices |
| Channels.AnOwnerLost | src/ClusterServer/Channel.cpp:249-261 | a channel whose owner names itself is left without one |
| Realms.RealmFollowsRegistrar | src/AuthServer/LogonCommServer.cpp:154-192 | in every run there is a realm of a name exactly if one was registered, and it is online exactly while the socket that registered it last is there, whatever other sockets do |
| Realms.RealmsInEveryRun | src/AuthServer/AccountCache.cpp:395-443 | in every run names are unique, no realm points at a socket that is gone, and each realm on a socket is among the ids that socket will take offline |
| Realms.IdsNotReused | src/AuthServer/LogonCommServer.cpp:161-173 | an id that belongs to no realm any more never belongs to one again |
| Realms.DropKeeps | src/AuthServer/AccountCache.cpp:503-556 | sockets that go take exactly the realms offline that are still on them |
| Realms.RegisterKeeps | src/AuthServer/LogonCommServer.cpp:154-192 | a registration replaces the realm of its name under a new id and touches no other |
| RealmRequests.TimeoutIs | src/AuthServer/AccountCache.cpp:503-536 | a timeout takes off exactly the sockets whose last ping is more than 60 seconds old by a clock of 32 bits |
| RealmRequests.ConnectIs | src/AuthServer/LogonCommServer.cpp:35-46 | a socket comes in with its first ping, counted exactly if it is allowed |
| RealmRequests.PingIs | src/AuthServer/LogonCommServer.cpp:236-241 | a ping counts for a socket that is there |
| RealmRequests.DisconnectIs | src/AuthServer/LogonCommServer.cpp:48-59 | exactly that socket goes |
| RealmObjects.InformationCore.HandleRegister | src/AuthServer/LogonCommServer.cpp:154-192 | the map and the socket's ids after a registration |
| RealmObjects.InformationCore.TimeoutSockets | src/AuthServer/AccountCache.cpp:503-536 | the loop over the sockets removes exactly those silent for more than 60 seconds of 32-bit time |
| RealmObjects.InformationCore.OnDisconnect | src/AuthServer/LogonCommServer.cpp:48-59 | a socket already removed changes nothing when it disconnects |
| RealmObjects.InformationCore.OnConnect | src/AuthServer/LogonCommServer.cpp:35-46 | a refused socket never counts as registered |
| RealmObjects.InformationCore.SetRealmOffline | src/AuthServer/AccountCache.cpp:538-558 | that realm is not on the socket afterwards, and other ids and a realm on another socket are untouched |
| RealmObjects.InformationCore.GetRealmIdByName | src/AuthServer/AccountCache.cpp:418-429 | the search by name |
| ArenaRoster.StepIff | src/WorldServer/ArenaTeam.cpp:486-529 | every request keeps rosters and pointers in agreement, and a charter does exactly if each signer that gets a slot is in no team of the type then |
| ArenaRoster.RunAgrees | src/WorldServer/ArenaTeam.cpp:109-182 | over every run with sound charters a player points at a team exactly if it occupies one of its slots, exactly once |
| ArenaRoster.AddIff | src/WorldServer/ArenaTeam.cpp:136-158 | adding keeps the agreement exactly if the team is full or the player's pointer is null |
| ArenaRoster.AddEachIff | src/WorldServer/GuildHandler.cpp:943-955 | the condition for a whole list of signers |
| ArenaRoster.AnUnsoundCharter | src/WorldServer/GuildHandler.cpp:946-955 | a charter that breaks the agreement exists |
| ArenaRoster.RemoveAgrees | src/WorldServer/ArenaTeam.cpp:160-182 | a removal keeps the agreement and takes out that player only |
| ArenaRoster.RemoveFirstShifts | src/WorldServer/ArenaTeam.cpp:166-168 | the shift keeps the others in order |
| ArenaRoster.DestroyAgrees | src/WorldServer/ArenaTeam.cpp:109-134 | after a team is destroyed no pointer to it is left |
| ArenaRoster.AcceptIs | src/WorldServer/ArenaTeam.cpp:136-158 | an invitation takes the next of 4, 6 or 10 slots exactly if one is free and the player is in no team of the type |
| ArenaRoster.LeaveIs | src/WorldServer/ArenaTeam.cpp:160-182 | leaving frees that player and nobody else |
| ArenaRoster.CharterIs | src/WorldServer/GuildHandler.cpp:929-943 | the leader has the first slot of the new team |
| ArenaObjects.ArenaTeam.AddMember | src/WorldServer/ArenaTeam.cpp:136-158 | the slot, the count and the pointer, or nothing if the team is full |
| ArenaObjects.ArenaTeam.RemoveMember | src/WorldServer/ArenaTeam.cpp:160-182 | the in-place shift of whole slots removes the first slot of the player and clears the pointer |
| ArenaObjects.ArenaTeam.Destroy | src/WorldServer/ArenaTeam.cpp:109-134 | removing each of a copied list, repetitions included, empties the roster and clears every pointer |
| Srp.SecretsAgree | src/AuthServer/AuthSocket.cpp:272-282 | the client's formula on the server's public value gives the server's secret, g to the b(a + ux) modulo n, for every modulus and all exponents |
| Srp.ServerSecretIs | src/AuthServer/AuthSocket.cpp:272-282 | the server's secret is g to the b(a + ux) |
| Srp.PublicIsPower | src/AuthServer/AuthSocket.cpp:202-214 | taking three times the verifier off the public value leaves the server's power of g |
| Srp.SessionKeysAgree | src/AuthServer/AuthSocket.cpp:272-309 | so both ends derive the same session key |
| Srp.SessionKeyIs | src/AuthServer/AuthSocket.cpp:283-309 | the session key byte by byte: the digest of the secret's even bytes at the even places, that of the odd bytes at the odd ones |
| Srp.PowAdd | src/AuthServer/AuthSocket.cpp:202-214 | powers multiply as their exponents add, from the power of one on |
| Srp.InterleaveRoundTrip | src/AuthServer/AuthSocket.cpp:287-307 | splitting into even and odd bytes and interleaving are inverse to each other |
| Srp.BytesInjective | src/AuthServer/AuthSocket.cpp:282-283 | a secret of 32 bytes is known by them |
| Srp.DeriveKey | src/AuthServer/AuthSocket.cpp:283-309 | the four loops over the arrays compute the interleaved digests |
| Srp.AuthSocket.HandleChallenge | src/AuthServer/AuthSocket.cpp:202-214 | the fields after a challenge are 7 to the x and three times that plus 7 to the b, modulo the prime |
| Srp.AuthSocket.HandleProof | src/AuthServer/AuthSocket.cpp:272-309 | the session key is that of any client that made its public value from the same password |

## Left out

- Sockets, databases, configuration, logging, chat texts, packets other than the link's frames, spawned objects, spells, scripts and rewards: I/O or libraries that are not part of this model.
- Locks: every handler and update is one atomic step.
- Fixed arrays, lists and maps that an object owns are fields of type seq, set or map which its methods reassign; arrays are kept as arrays in the arena roster and the session key. Records reached through pointers (AVNode, AchievementData, Auction) are values inside their owner, so aliasing of a record is not modelled; aliasing of creatures, battlegrounds, auction houses, arena teams, players and the shared set of Realm Firsts is.
- LogonEnds.LinkDelivers: RC4 is an arbitrary keystream addressed by key and offset; sends succeed, there is one challenge per connection, the server says nothing before it, the buffers' capacity is unlimited, and the big-endian build is left out.
- LogonSockets.LinkSocket.OnRead: one class stands for both ends, which differ only in their handlers; of the handlers only those of the challenge and its answer are modelled.
- ArathiBasin: the weekend setting is an argument of the constructor, because the source sets it right after construction; the flag for the near-victory message and the list of buffs are left out. Nothing happens after the end.
- AlteracValley: the displayed node fields and the mines' income (the source never calls AddReinforcements) are left out. Steps after the end are included, since kills still count there.
- Achievements.RunKeeps: of the criteria handlers killing a creature stands for the others; a player's permissions and team are fixed during a run, the criteria sets are visited in a fixed order, and a counter wraps at 32 bits.
- AchievementHandlers.AchievementInterface.HandleDeath: the progress map is visited in any order.
- ChainAggro.AfterPull: threat is an unbounded integer, threat modifiers are at least -100, a redirected part is any part of the whole, damage comes without a spell, and the target has no script.
- ChainAggroObjects.ChainAggroEntity.AddAggroEntity: a new member goes to the end; the order of the set of pointers is not modelled and, by ChainIsCalled, does not matter. A creature that another group still holds is not taken out of it.
- Auctions: the cut is the floor of an integer percentage, auctions are visited in ascending order of id where the source visits them in hash order, ids do not wrap, and the inventory the item comes from and the collection of letters are left out. The deposit is an argument.
- AuctionFates.SendAuctionList: the filters are one flag for each auction.
- QueueObjects.Manager.UpdateQueue: one type and level group; EventQueueUpdate runs it for each pair. The rated matching of groups that follows is left out, and so are the fields AddPlayer sets on the player, which the pass does not read again. Creating an arena is taken to succeed, as the source takes it.
- Channels: there is one record for each guid, members are in ascending order of it, and the build is not the Windows one, where an empty channel stays.
- ChannelIndex: the setting seperatechannels and the banned names are fixed, a list is searched in the order of insertion (at most one entry can match), names are ASCII, and ids do not wrap.
- RealmRequests.TimeoutIs: times are numbers of 32 bits, as the source stores them.
- Realms: socket ids are not reused; the fields of a realm that no property needs, the character maps and CheckServers, which only disconnects, are left out.
- ArenaRoster: statistics are a rating and two counters; rosters read from the database and the leader's privileges are left out.
- Srp.SessionKeysAgree: SHA-1 is any function to 20 bytes, BigNumber is the integers with bytes filled up to 32, and the comparison of the proofs is left out.
- The world server's own channels, the near copy of the cluster's, are left out.
