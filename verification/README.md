# A verified model of cometduty's state machines and codecs

cometduty is a monitoring daemon for CometBFT chains. Behind its network and file I/O sit
small state machines and codecs whose correctness cannot be read off one function. This
project models five groups of them and proves what they keep over every input, every run
and every interleaving.

- **Bech32 codec.** The checksum register is linear and each of its steps is invertible, so
  exactly one checksum fits any data and a burst of up to six wrong symbols is always seen.
  The 8-to-5-bit regrouping and its padding test are inverse to each other at every length.
  Encode and Decode are mutual inverses, and Decode accepts exactly the encodings.
- **Alert engine.** Dispatch gives its lock up between its sections, so a run is any
  sequence of locked sections, each with its own clock reading. In every run raises and
  resolves of a key alternate per destination, a raise after a resolve waits out the flap
  window, reminders only repeat open alerts, and the next decision depends on the key's
  history alone. Every run of whole calls is such a run, and what a Dispatch sends is read
  off the state before it. A restart is invisible to later decisions exactly under a stated
  condition, and what silences mute survives it.
  Held alerts are conserved, and planned downtime under a silence sends nothing.
- **Telegram cards.** The card map is a second record of what is open. For every sequence of
  Bot API answers, and however bots, channels and nodes change from alert to alert, it
  differs from the engine's by exactly the raises that reached no card and the resolves that
  did not reach their key's.
- **Votes, blocks and stalls.** The classification of a block, the per-validator counters
  and both alarm latches are functions of the whole history of events.
- **Log streams.** Frame demultiplexing, resuming after a reconnect, tailing a growing file
  and the compacted rule window each refine a short specification over the whole stream.
- **Protobuf wire format.** Reading undoes writing for every 64-bit varint and every list of
  string fields; parsing is compositional; and the inputs on which it does not return are
  characterised exactly.

Code that changes state step by step is modelled by classes and by methods with loops, each
proved against a function of its inputs or of the old state; the theorems are lemmas about
those functions. Clocks, network answers, file-system answers, random identifiers, the
resolver, regular expressions and timestamp parsing are parameters.

The modules, in the order they build on each other: `Options`, `Words`, `Clocks`, `Texts`;
`Bech32Register`, `Bech32Checksum`, `BitGroups`, `Bech32`, `Bech32Vectors`; `Alerts`,
`EngineState`, `AlertEngine`, `EngineRuns`, `EngineRestart`, `EngineMuting`,
`EngineSilences`, `EngineCalls`; `TelegramCards`, `Telegram`, `EngineCards`;
`Votes`, `BlockEvents`, `Blocks`, `Stall`; `LogLines`, `Docker`, `FileTail`, `Rules`;
`Protowire`.

## Findings

Where the code does not do what one would expect of it, the model keeps the code, gives an
input on which that happens, and says exactly when it does.

- A resolve whose Telegram edit fails leaves a card without open conditions in the map; the
  retry finds nothing to clear. `TelegramCards.SendLively` says this is the only way,
  `TelegramCards.StrandedHappens` that it happens.
- A raise that needs a new Telegram card and fails to post it, retry included, stays open in
  the engine and on no card until it is resolved (`EngineCards.CardsFollowEngine`,
  `EngineCards.MissHappens`).
- A resolve leaves its key on the card that shows it exactly when the merged configuration has
  lost its bot or channel, or now leads to another card, as after a reload that changes a
  channel, a chain id or a node's name (`EngineCards.ResolveLeaves`,
  `EngineCards.LingerHappens`).
- A restart forgets the flap windows and entries older than the maximum age; a later
  decision can tell exactly when there was one (`EngineRestart.RestartInvisible`,
  `EngineRestart.UnsafeHappens`).
- A vote can be lost when signed heights repeat or go back: exactly when a resolve at or
  above its height pruned it and neither the block nor a later vote says as much
  (`Votes.MaximumIff`, `Votes.RepeatedHeightForgets`).
- `Parse` compares a length after converting it to a signed number; a length of 2^63 or more
  passes the comparison and the slice after it panics (`Protowire.PanicsIff`,
  `Protowire.PanicsHappen`). A field number comes back modulo 2^61
  (`Protowire.StringRoundTrip`).
- An alert about no node whose key is spelled like a chain id, a bar and a node name shares
  that node's card (`TelegramCards.SharedCards`, `TelegramCards.SharedByName`).
- The comment on the docker stream (internal/logs/docker.go:76-78) speaks of a `since`
  position; the code resumes with `tail` and drops lines up to the newest timestamp read,
  and so does the model.

## Model

| member | source | states |
|---|---|---|
| Bech32Register.BitsFeedBack | internal/bech32/bech32.go:25-33 | Each of the five bits shifted out feeds back its own generator, in numbers |
| Bech32Register.StepLinear | internal/bech32/bech32.go:26-33 | One register step is linear over exclusive or, in the register and the symbol together |
| Bech32Register.StepStaysInRegister | internal/bech32/bech32.go:26-33 | A step keeps the register below 2^30 |
| Bech32Register.StepInvertible | internal/bech32/bech32.go:26-33 | Equal results of a step on the same symbol come from equal 30-bit states |
| Bech32Register.RunInjective | internal/bech32/bech32.go:24-36 | Feeding the same symbols to different 30-bit states never makes them meet |
| Bech32Register.RunPacks | internal/bech32/bech32.go:24-36 | Up to six last symbols land in disjoint bit fields: runs over two endings differ by the exclusive or of their packings |
| Bech32Register.PackInjective | internal/bech32/bech32.go:24-36 | Different endings of equal length up to six pack differently |
| Bech32Register.PackUnpack | internal/bech32/bech32.go:54-57 | The six symbols cut out of a 30-bit word pack back into that word |
| Bech32Checksum.ChecksumUnique | internal/bech32/bech32.go:50-63 | For every hrp and data of any length exactly one 6-symbol suffix verifies, and it is createChecksum's |
| Bech32Checksum.BurstDetected | internal/bech32/bech32.go:24-63 | Two words that differ only inside a window of at most six symbols never both verify, at any length |
| Bech32Checksum.SubstitutionDetected | internal/bech32/bech32.go:61-63 | Changing any one symbol of a verifying word makes it fail |
| Bech32Checksum.ComputePolymod | internal/bech32/bech32.go:24-36 | The nested loops compute the register run from 1 |
| Bech32Checksum.ExpandHrp | internal/bech32/bech32.go:38-48 | The two loops compute the high bits, a zero and the low bits of the hrp |
| Bech32Checksum.ComputeChecksum | internal/bech32/bech32.go:50-59 | The array filled by index is the specified checksum |
| Bech32Checksum.CheckChecksum | internal/bech32/bech32.go:61-63 | True exactly when the register ends at 1 |
| BitGroups.RegroupInverse | internal/bech32/bech32.go:67-92 | Padding to narrower groups and regrouping back is the identity at every length |
| BitGroups.CanonicalOnly | internal/bech32/bech32.go:84-91 | The padding test accepts only words that padding produces: what it accepts regroups back to the same word |
| BitGroups.FeedAccumulator | internal/bech32/bech32.go:77 | Shifting a group in under the mask keeps the last m bits of the stream |
| BitGroups.EmitFromAccumulator | internal/bech32/bech32.go:79-82 | A group read from the masked accumulator is the stream's group: no unemitted bit was dropped |
| BitGroups.Finish | internal/bech32/bech32.go:84-91 | What the loop leaves decides the result as a function of the whole bit stream: padded groups, or the groups if the rest is short and zero |
| BitGroups.RegroupBits | internal/bech32/bech32.go:67-92 | The accumulator loop returns the chunks of the bit stream, or the specified error |
| Bech32.EncodeThenDecode | internal/bech32/bech32.go:94-153 | Encode succeeds exactly for a readable hrp of 1 to 83 characters, and Decode reads its text back as the lower-cased hrp and the bytes, unless the text is over 90 characters |
| Bech32.DecodeThenEncode | internal/bech32/bech32.go:94-153 | Whatever Decode accepts is, in lower case, what Encode writes for its result |
| Bech32.DecodeAccepts | internal/bech32/bech32.go:120-153 | Decode accepts exactly the texts of at most 90 characters, in one case, that are an encoding of some hrp and bytes |
| Bech32.MixedCaseRefused | internal/bech32/bech32.go:124-126 | A text of admissible length with a capital and a small letter in it is refused as mixed case |
| Bech32Vectors.ReferenceVector | internal/bech32/bech32.go:94-153 | BIP-0173's vector A12UEL5L decodes and encodes |
| Bech32Vectors.AlphabetVector | internal/bech32/bech32.go:11-63 | So does its vector abcdef1 with all 32 characters of the alphabet: with the five bits it fixes generators, alphabet and the final constant |
| Bech32.InitCharsetRev | internal/bech32/bech32.go:15-22 | The reverse table maps each ASCII character to its alphabet position or -1 |
| Bech32.EncodeText | internal/bech32/bech32.go:95-117 | The encoder returns the specified text or error |
| Bech32.DecodeText | internal/bech32/bech32.go:120-153 | The decoder returns the specified result or the first error in the code's order |
| Alerts.SplitKey | internal/alert/silence.go:278-281 | Splits at the first colon, if there is one |
| Alerts.Prepared | internal/alert/engine.go:136-144 | Filling in keeps the chain, the resolve flag and any key given |
| Alerts.PreparedMeans | internal/alert/engine.go:136-144 | An empty key becomes the message, a missing time the clock's, an empty kind and its target the two parts of the key; nothing else changes |
| Alerts.LabelSetIsLabelOf | internal/alert/silence.go:93-111 | A matcher sees under each of nine names the alert's own field, else the operator's label, else the empty string |
| Alerts.MatcherMeans | internal/alert/silence.go:31-58 | Which matchers compile; and, spelled out without the code's helpers, that one with isEqual absent or true matches exactly the alerts with its value or a value its expression matches, and with isEqual false exactly the others |
| Alerts.CompileAll | internal/alert/silence.go:130-133 | All matchers compiled in order, or none when some matcher does not compile |
| Alerts.SilenceAcceptedIff | internal/alert/silence.go:115-143 | A silence is accepted exactly when it ends after its start and after now, lasts at most a week, in nanoseconds, all its matchers compile and one does not ask for the empty value |
| Alerts.SilenceRefusedFor | internal/alert/silence.go:120-143 | Which of the five errors a refused silence is given |
| Alerts.AcceptedSilenceMutes | internal/alert/silence.go:48-154 | What an accepted silence is stored as, and that it mutes, from its start up to its end, exactly the alerts with every value its matchers ask for |
| Alerts.AcceptedSilenceSelects | internal/alert/silence.go:115-154 | An accepted silence lasts a positive time of at most seven days and has a matcher without whose label it mutes no alert |
| Alerts.UnselectiveSilenceRefused | internal/alert/silence.go:129-142 | A silence whose matchers all ask for the empty value is refused |
| AlertEngine.Engine.constructor | internal/alert/engine.go:104-116 | A new engine has empty maps and the given windows |
| AlertEngine.Engine.RegisterNotifier | internal/alert/engine.go:119 | Adds a destination kind |
| AlertEngine.Engine.IsSilenced | internal/alert/silence.go:223-234 | True exactly when some stored silence mutes the alert now |
| AlertEngine.Engine.RegisterAlert | internal/alert/engine.go:147-163 | Dispatch's first locked section on `active` and `held`, and whether the alert is muted |
| AlertEngine.Engine.DecideSend | internal/alert/engine.go:210-244 | One shouldSend on `sent` and `flapped`, creating missing inner maps |
| AlertEngine.Engine.HasOpenAlert | internal/alert/engine.go:248-257 | True exactly when some destination holds an open alert for the key |
| AlertEngine.Engine.DispatchAlert | internal/alert/engine.go:135-176 | A whole dispatch: the new state and what it lets through to each destination, in order |
| AlertEngine.Engine.TakeUnmuted | internal/alert/silence.go:258-272 | Takes exactly the unmuted alerts out of `held` and lists those still active, each once |
| AlertEngine.Engine.DispatchList | internal/alert/silence.go:272-276 | Dispatches a list of alerts in order |
| AlertEngine.Engine.ReleaseHeld | internal/alert/silence.go:258-276 | A whole releaseHeld, for whatever order the map is walked in |
| AlertEngine.Engine.AddSilence | internal/alert/silence.go:115-154 | Stores the validated silence under its id, or changes nothing and reports why |
| AlertEngine.Engine.ExpireSilence | internal/alert/silence.go:157-173 | Ends a known silence now and releases what it held; an unknown id changes nothing |
| AlertEngine.Engine.PruneSilences | internal/alert/silence.go:238-256 | Forgets exactly the silences that ended more than a day ago |
| AlertEngine.Engine.RestoreSilences | internal/alert/silence.go:202-220 | Stores every persisted silence that is recent enough and compiles |
| AlertEngine.Engine.RemindTick | internal/alert/engine.go:328-348 | One reminder tick: the entries counted as sent now, and exactly the reminders to send, each as often as the resolver names its destination |
| AlertEngine.Engine.RemindDestination | internal/alert/engine.go:329-346 | The same for one destination's entries |
| AlertEngine.Engine.RemindEntry | internal/alert/engine.go:332-345 | The same for one entry |
| AlertEngine.Engine.ListReminders | internal/alert/engine.go:340-344 | One copy of the reminder for each time the resolver names its registered destination |
| EngineState.ReminderMeans | internal/alert/engine.go:332-344 | A reminder goes out exactly for an alert open at a registered destination that still applies, last sent long enough ago and muted by nothing; it is that alert with a marked message |
| EngineState.RemindersListedOnce | internal/alert/engine.go:328-348 | When the resolver names each destination at most once, a tick lists exactly the reminders, all different |
| AlertEngine.Engine.RestoreSaved | internal/alert/engine.go:289-307 | Restores exactly the entries young enough, under their authoritative keys |
| EngineMuting.SilencedMeans | internal/alert/silence.go:82-92 | An alert is muted exactly while some stored silence in effect asks, by its matchers as written, for the values the alert has |
| EngineMuting.RunKeepsCompiled | internal/alert/silence.go:129-133 | In every run that stores compiled silences every stored silence stays compiled |
| EngineMuting.AddedSilenceMutes | internal/alert/silence.go:115-154 | Adding a silence replaces what its id named and mutes from then on exactly what the others mute and the alerts it asks for while it is in effect |
| EngineMuting.ExpiredSilenceEnds | internal/alert/silence.go:157-166 | An expired silence, pending or active, mutes nothing from now on; the other silences, and the past, are unchanged |
| EngineMuting.PruningUnmutesNothing | internal/alert/silence.go:246-251 | Exactly the silences that ended more than a day ago are forgotten, and no alert is unmuted by that |
| EngineMuting.RestartKeepsMuting | internal/alert/silence.go:202-220 | With the silences of the state file restored, compiled expressions lost and made again, the same alerts are muted at every later time |
| EngineRuns.StepAgrees | internal/alert/engine.go:210-244 | Whatever one section adds to a key's history may follow it, and the maps keep up with the history |
| EngineRuns.RunPairs | internal/alert/engine.go:135-244 | In every run of interleaved sections, of a new or a restored engine, each key's history is well paired per destination, raises wait out the flap window and reminders the reminder interval, and `sent` and `flapped` are the history's last word; a restored open alert counts as its raise |
| EngineRuns.RestartedRunPairs | internal/alert/engine.go:289-307 | The same for every daemon that restores a state file and silences at its start, whatever they hold |
| EngineRuns.RunAlternates | internal/alert/engine.go:210-244 | From a new or restored engine, raises and resolves strictly alternate, and a key is open exactly after an odd number of them |
| EngineRuns.WellPairedAlternates | internal/alert/engine.go:210-244 | A well-paired history, reminders aside, is raise, resolve, raise and so on |
| EngineRuns.DecisionIsHistory | internal/alert/engine.go:210-244 | After every run of a new or restored engine the next decision is a function of the history of its key alone |
| EngineRuns.HasOpenIsHistory | internal/alert/engine.go:248-257 | After every run HasOpen is true exactly when the key's history at some destination ends open |
| EngineRuns.ActiveIsHistory | internal/alert/engine.go:147-158 | After every run a condition is active exactly if the last alert registered for it was a raise, and since that raise's time |
| EngineRuns.StepKeepsHeld | internal/alert/engine.go:147-163 | Every section keeps each held alert under its own key and active under its chain |
| EngineRuns.RunKeepsHeld | internal/alert/silence.go:258-276 | So it is in every reachable state of every interleaving |
| EngineRestart.RestoreMeans | internal/alert/engine.go:289-307 | An entry last sent at most the maximum age ago is open under its map key with its payload and its time; every other key is as it was |
| EngineRestart.SafeRestartAlike | internal/alert/engine.go:275-307 | A safe restart leaves the engines alike: same open keys, same flap answers from the cut on |
| EngineRestart.UnsafeRestartShows | internal/alert/engine.go:275-307 | After an unsafe restart a single decision tells the engines apart |
| EngineRestart.RestartInvisible | internal/alert/engine.go:210-307 | Snapshot and Restore into a fresh engine is invisible to every later sequence of shouldSend and HasOpen exactly when no open entry is too old and no closed key was resolved within the flap window |
| EngineRestart.UnsafeHappens | internal/alert/engine.go:275-307 | Unsafe restarts exist: a raise and its resolve with the cut within the flap window, or a raise left open beyond the maximum age |
| EngineCalls.SendAllIsSendings | internal/alert/engine.go:165-175 | Dispatch's loop sends exactly to the registered destinations that let the alert through, by the state it starts from, each at its first place in the resolver's order; each has then been told |
| EngineCalls.DispatchSends | internal/alert/engine.go:135-176 | A whole Dispatch: a muted raise is held and sends nothing; any other alert is sent to exactly those destinations |
| EngineCalls.DispatchReaches | internal/alert/engine.go:147-175 | After a resolve its key is open on no registered destination the resolver names; after a raise that is not muted it is open on each or within the flap window there |
| EngineCalls.DispatchIsRun | internal/alert/engine.go:135-176 | A Dispatch is a run of sections: the registration and, unless muted, a decision for each registered destination in order, with the same state and the same sends |
| EngineCalls.EachIsRun | internal/alert/silence.go:272-276 | So is a list of Dispatches |
| EngineCalls.ReleaseIsRun | internal/alert/silence.go:258-276 | So is releaseHeld, for every order its walk may take |
| EngineCalls.CallsAreRuns | internal/alert/engine.go:135-244 | Every run of whole calls is a run of sections, with the same state and the raises and resolves those let through, in order |
| EngineCalls.CallsAlternate | internal/alert/engine.go:210-244 | So in every run of whole calls, from a new or restored engine, each destination is sent raises and resolves of a key in turn, and the key is open there exactly if the last was a raise |
| EngineSilences.SendAllOthers | internal/alert/engine.go:165-175 | Sending touches only the alert's own key in the dedup maps and the log |
| EngineSilences.SendAllReaches | internal/alert/engine.go:165-175 | After a raise each registered destination on its list has it open or is within the flap window |
| EngineSilences.ReleaseConserves | internal/alert/silence.go:258-276 | With the clock fixed during the call, releaseHeld leaves exactly the muted alerts held, every alert it dispatches reaches its destinations, and other keys are untouched |
| EngineSilences.HeldAreConserved | internal/alert/silence.go:258-276 | After every run of whole calls from a new or restored engine a held alert either stays held unchanged because it is muted, or is out and open or within the flap window at each registered destination |
| EngineSilences.QuietCall | internal/alert/engine.go:135-176 | A call that finds a closed key muted sends nothing about it and leaves it closed |
| EngineSilences.QuietTick | internal/alert/engine.go:328-348 | A reminder tick opens and closes nothing, and reminds only of open alerts |
| EngineSilences.MutedRunIsQuiet | internal/alert/silence.go:157-173 | A key open nowhere whose raises all arrive while muted and that no release meets unmuted causes no send in the whole run, reminder ticks included |
| EngineSilences.PlannedDowntimeNeverPages | internal/alert/silence.go:156-173 | A key raised only while a standing silence selects it, resolved while the silence stands and not raised again causes no send, whatever dispatches, releases, expiries, additions and prunings of silences and reminder ticks come in between and afterwards, the silence's end included |
| TelegramCards.RankOrder | internal/alert/notifiers/telegram.go:208-218 | Critical over warning over info over anything else |
| TelegramCards.SharedCards | internal/alert/notifiers/telegram.go:87-91 | Exactly which alerts share a card, bars in chain ids, nodes and keys included; for chain ids without a bar two alerts about nodes do exactly when they are about one node of one chain |
| TelegramCards.SharedByName | internal/alert/notifiers/telegram.go:87-91 | For every node there is a key, spelled chain id, bar, node, under which an alert about no node is put on that node's card |
| TelegramCards.OpenIndex | internal/alert/notifiers/telegram.go:165-172 | The first open condition under a key, or -1 when there is none |
| TelegramCards.Worst | internal/alert/notifiers/telegram.go:183-191 | The highest rank among the open conditions, 0 when there is none |
| TelegramCards.RaiseStores | internal/alert/notifiers/telegram.go:122-153 | What a raise stores, for every answer: the new card with its fields and message id, or the condition in the place of the open one under its key or at the end; when a worse condition is said aloud; which message id the card has and whether the Send succeeds |
| TelegramCards.ResolveStores | internal/alert/notifiers/telegram.go:78-120 | What a resolve stores, for every answer: its condition cleared and the others as they were, the card dropped, or kept with its message id; and that reminders, unknown keys and missing configurations change nothing |
| TelegramCards.LeadIs | internal/alert/notifiers/telegram.go:193-206 | The condition a card is about is the first open one of the highest open rank, or the first one when all have cleared, and there is one at most |
| TelegramCards.SendKeepsWellFormed | internal/alert/notifiers/telegram.go:75-153 | Whatever the Bot API answers, every card has conditions and never two open ones with one key |
| TelegramCards.SendShows | internal/alert/notifiers/telegram.go:75-153 | A resolve takes exactly its key off its card, a raise puts exactly its key on it unless a new card fails to post, a reminder changes nothing |
| TelegramCards.SendLively | internal/alert/notifiers/telegram.go:104-120 | Every card keeps an open condition, except exactly when a resolve clears the last one and its edit fails |
| TelegramCards.StrandedHappens | internal/alert/notifiers/telegram.go:108-111 | Such a resolve exists for every configuration: the only open condition of a card, with the edit refused |
| Telegram.TgCard.Open | internal/alert/notifiers/telegram.go:165-172 | The loop finds the first open condition under a key |
| Telegram.TgCard.AllClear | internal/alert/notifiers/telegram.go:174-181 | True exactly when no condition is open |
| Telegram.TgCard.Worst | internal/alert/notifiers/telegram.go:183-191 | The loop computes the highest open rank |
| Telegram.TgCard.Lead | internal/alert/notifiers/telegram.go:195-206 | The earliest of the worst open conditions, or the first when all have cleared |
| Telegram.Telegram.Edit | internal/alert/notifiers/telegram.go:458-472 | An edit succeeds, fails, or posts anew and takes the new message id |
| Telegram.Telegram.Resolve | internal/alert/notifiers/telegram.go:104-120 | The resolve branch updates the card object in place as specified |
| Telegram.Telegram.Raise | internal/alert/notifiers/telegram.go:122-153 | The raise branch creates or updates the card object in place as specified |
| Telegram.Telegram.Send | internal/alert/notifiers/telegram.go:75-153 | One delivery attempt on the card objects is the specified transition of the card map |
| EngineCards.DeliverShows | internal/alert/engine.go:179-206 | With a bot and a channel, attempting a delivery until one attempt succeeds takes exactly a resolve's key off its card and puts exactly a raise's key on it, unless every post of a new card failed |
| EngineCards.DeliveryShows | internal/alert/notifiers/telegram.go:75-82 | The same for every configuration: without a bot or a channel a delivery changes no card |
| EngineCards.StepInStep | internal/alert/notifiers/telegram.go:75-153 | Every section of the engine, with the delivery it causes under the configuration that alert is resolved to, keeps engine, cards and the ledger of deliveries in step |
| EngineCards.CardsFollowEngine | internal/alert/notifiers/telegram.go:75-153 | In every run with in-order delivery, any API answers, and bots, channels, chain ids and nodes that change freely: a key in sent for telegram is on the card its last raise was put on, or that raise was missed, and any other key on a card was left there by a resolve delivered to another card or to none |
| EngineCards.ResolveLeaves | internal/alert/notifiers/telegram.go:104-108 | After a resolve is let through its key is on exactly the cards earlier resolves left it on and the card that showed it, save the one this resolve is delivered to |
| EngineCards.CardsStayHome | internal/alert/notifiers/telegram.go:87-91 | When channel, chain id and node of the alerts that can be delivered are functions of the key, no key is ever open on two cards, whatever the API answers, and a resolve leaves its key behind exactly when it has no configuration |
| EngineCards.CardsEqualEngine | internal/alert/notifiers/telegram.go:75-153 | When moreover each alert has a configuration and its first attempt gets through, by an edit or by posting a vanished card anew, the keys open on some card are exactly the keys in sent for telegram and every card has an open condition |
| EngineCards.MissHappens | internal/alert/notifiers/telegram.go:123-128 | Missed raises exist: any first raise none of whose attempts can post is in sent and on no card |
| EngineCards.LingerHappens | internal/alert/notifiers/telegram.go:80-108 | Leftovers exist: a posted raise whose resolve has lost its bot or its channel, or is resolved to another channel, chain id or node |
| Votes.VoteTracker.RecordVote | internal/monitor/sign.go:170-174 | A vote replaces the pending state of its height only when it is greater |
| Votes.VoteTracker.Finalize | internal/monitor/sign.go:179-191 | The greater of the block's word and the pending vote, and every height up to the finalized one pruned |
| Votes.PendingIsBest | internal/monitor/sign.go:161-174 | What is pending for a height is the greatest vote for it since the last resolve at or above it |
| Votes.ResolveIsBest | internal/monitor/sign.go:179-191 | For every interleaving, resolve returns the greatest of the block's word and the votes that count, and leaves only greater heights pending |
| Votes.ResolveIsMaximum | internal/monitor/sign.go:170-191 | With strictly increasing signed heights it is the maximum over all votes ever observed for exactly that height |
| Votes.MaximumIff | internal/monitor/sign.go:170-191 | For every history, heights in any order: the answer is the maximum over all votes ever cast for the height exactly when every vote a resolve at or above the height has pruned is at most the block's word or some vote that counts |
| Votes.AllBelowIsWeakest | internal/monitor/sign.go:179-191 | No weaker condition on the resolved heights does: they are all below a height exactly when every early vote for it is heeded |
| Votes.OnlyOwnVotesMatter | internal/monitor/sign.go:155-191 | Vote order, late votes and votes for other heights never matter |
| Votes.RepeatedHeightForgets | internal/monitor/sign.go:179-191 | A history in which a height resolved twice forgets its vote |
| BlockEvents.Signed | internal/monitor/sign.go:90-105 | True exactly when a commit signature of the address is there up to letter case, and the ratio of commit signatures to entries |
| BlockEvents.FoldMeans | internal/monitor/sign.go:98 | Addresses are compared up to a letter's case, 32 positions apart |
| BlockEvents.Ratio | internal/monitor/sign.go:101-103 | The ratio lies between 0 and 1 |
| BlockEvents.RatioExtends | internal/monitor/sign.go:92-104 | Each entry adds one to the count of entries, and one to that of signers exactly if its flag is 2 and its signature is not empty |
| Blocks.Classify | internal/monitor/sign.go:195-212 | Resolves the signed height with the block's word: proposed, signed or missed |
| Blocks.Target.RecordBlock | internal/monitor/watcher.go:149-180 | The tracker and counters after a block, and the state recorded, unknown while unbonded |
| Blocks.Target.CheckMisses | internal/monitor/health.go:660-672 | The latch and the pages of the consecutive-miss section |
| Blocks.Watcher.HandleVote | internal/monitor/watcher.go:118-128 | A vote reaches the tracker of the validator it names and no other |
| Blocks.Watcher.HandleBlock | internal/monitor/watcher.go:132-180 | Every target is updated by what the block says about it, whatever the other targets |
| Blocks.BlockMeans | internal/monitor/sign.go:195-212 | A block attests to the height of the commit it carries, else to the height before its own; its word is 4 for the proposer, 3 for a commit signature, 0 otherwise |
| Blocks.VoteMoves | internal/monitor/sign.go:142-174 | One more vote of wire type 1, 2 or 32 for the height a block attests to raises the block's classification to 1, 2 or 4; other votes and votes for other heights change nothing |
| Blocks.BlockNotCounted | internal/monitor/watcher.go:149-160 | A block changes nothing about a validator without an address, and does not count for one that is not bonded |
| Blocks.BlockIsHistory | internal/monitor/sign.go:195-212 | In every run each block's classification is the greatest of its word, by proposer and signatures, and the votes that count for the height it attests to, written out |
| Blocks.CountersAreHistory | internal/monitor/watcher.go:161-180 | Over every run the counters are the tallies of the bonded blocks' classifications and consec is the length of the trailing unsigned run |
| Blocks.CountersBalance | internal/monitor/watcher.go:161-180 | signs + miss is the number of bonded blocks, props <= signs, pvMiss + pcMiss <= miss, consec <= miss |
| Blocks.AlarmAfterTick | internal/monitor/health.go:660-672 | After a tick with a positive threshold the alarm holds exactly when consec has reached it; other ticks change nothing |
| Blocks.TickPages | internal/monitor/health.go:660-672 | Exactly when a tick raises the alarm, and exactly when it clears it |
| Blocks.RaisesAreCleared | internal/monitor/health.go:660-672 | The latch is the last page, and two raises always have a clear between them |
| Stall.Chain.SeeBlock | internal/monitor/watcher.go:143-145 | A block sets the last block time and nothing else of the stall state |
| Stall.Chain.MarkNoNodes | internal/monitor/chain.go:618-628 | The dialer's verdict and the two clocks it starts |
| Stall.Chain.FinishProbe | internal/monitor/health.go:162-168 | The prober's verdict; seeing again restarts the stall clock |
| Stall.Chain.Rebuild | internal/monitor/chain.go:206-242 | A reload's first section changes the nodes and leaves the stall state alone |
| Stall.Chain.SwapConfig | internal/monitor/chain.go:245-251 | A reload's second section changes only the configuration |
| Stall.Chain.CheckStall | internal/monitor/health.go:486-505 | The stall section of one tick: pages, latch and key |
| Stall.ScopeSplits | internal/monitor/health.go:758-765 | A stall alert's kind and target name the only endpoint, or else the chain |
| Stall.StateIsHistory | internal/monitor/health.go:162-168 | Last block, last return of an endpoint, blindness and since when the dialer knows of it are functions of the history |
| Stall.LimitIsShorter | internal/monitor/health.go:489 | The configured minutes, multiplied in 64-bit arithmetic, are always less than the longest duration |
| Stall.LimitMeans | internal/monitor/health.go:489 | The limit is the minutes in nanoseconds up to 153722867 of them, and wraps round beyond |
| Stall.RaiseIffLastSigns | internal/monitor/health.go:486-505 | For every clock and every configured limit a tick raises a stall exactly when no stall is open, an endpoint works, a block was seen, and the last block and the last return of an endpoint are longer ago than the limit |
| Stall.RaiseIffSilent | internal/monitor/health.go:486-505 | With a clock that does not run backwards, exactly when every block and every return of an endpoint is longer ago than the limit |
| Stall.ResolveIffLastSigns | internal/monitor/health.go:486-505 | For every history, clock and limit a tick pages a resolve exactly when the check is on, a stall is open by the latch or at some destination, a block was seen, and the last block or the last return of an endpoint is no longer ago than the limit |
| Stall.TickPages | internal/monitor/health.go:486-505 | Any other tick pages nothing, or raises that key |
| Stall.ResolveMatchesRaise | internal/monitor/health.go:486-505 | Over every run the page after a raise is a resolve with the same key, even if a reload changed the nodes |
| LogLines.TwoLines | internal/logs/docker.go:127 | Lines end at bytes 10 and nowhere else |
| LogLines.LinesJoin | internal/logs/docker.go:126-137 | Lines and unterminated rest make up the stream again, and hold no newline |
| LogLines.JoinLines | internal/logs/docker.go:126-137 | There is only one way to cut a stream into lines and a rest |
| LogLines.LinesConcat | internal/logs/docker.go:125-138 | Carrying the rest over a cut anywhere changes no line |
| Docker.FramesUndoWrite | internal/logs/docker.go:113-125 | Reading a written sequence of frames gives back its payloads, and nothing of a frame the stream breaks in |
| Docker.FramesInFront | internal/logs/docker.go:113-125 | Frames in front of any other bytes give their payloads, and reading goes on behind them |
| Docker.BadFrameStops | internal/logs/docker.go:115-121 | The size is the header's last four bytes, most significant first; zero or more than 4194304 ends the reading after the payloads before |
| Docker.DockerSource.NoteLine | internal/logs/docker.go:156-167 | Strips the timestamp and drops lines not newer than the newest one read |
| Docker.NoteUnstamped | internal/logs/docker.go:156-166 | A line without a timestamp before its first space is passed on unchanged and leaves the newest timestamp alone |
| Docker.DockerSource.Split | internal/logs/docker.go:126-138 | The inner loop hands on the lines of the buffer and keeps the rest |
| Docker.DockerSource.Demux | internal/logs/docker.go:110-140 | What is handed on are the lines of the payloads put together, `partial` is their unterminated rest, and reading ends at the first bad or short frame |
| Docker.FrameBoundariesVanish | internal/logs/docker.go:110-140 | However the same bytes are divided into frames, and wherever the stream breaks after them, the lines and the rest are the same |
| Docker.NoteAllConcat | internal/logs/docker.go:156-167 | Noting lines in two portions is noting them in one |
| Docker.StampsIncrease | internal/logs/docker.go:79-87 | Over all reconnects, whatever they read, timestamped lines come out in strictly increasing order |
| Docker.StretchUnread | internal/logs/docker.go:156-167 | Reading a stretch that starts at or before the first unread line passes on exactly its unread part |
| Docker.ExactlyOnce | internal/logs/docker.go:79-167 | If every tail starts at or before the first unread line, all connections together pass on the log from the first line read, once and without a gap, however framed and wherever broken, inside a frame or between two; connections that read no whole line change nothing |
| FileTail.FileSource.ReadLines | internal/logs/file.go:97-110 | The read loop emits the whole lines and moves the offset by their bytes |
| FileTail.FileSource.Stream | internal/logs/file.go:34-111 | The polling loop is the specified run over what the polls find, failures and rotation included |
| FileTail.PollReads | internal/logs/file.go:53-95 | Exactly which polls read, which file, and from which offset |
| FileTail.TruncationStartsOver | internal/logs/file.go:88-110 | A file shorter than what was read of it is read from its start |
| FileTail.PollKeepsAccount | internal/logs/file.go:53-110 | One more poll of a growing file keeps the account of what was emitted and where the offset is |
| FileTail.TailIsExact | internal/logs/file.go:53-110 | On an append-only file and every poll schedule, the lines emitted are exactly the whole lines from the start offset up to what the last reading poll saw, and off is the start plus their bytes |
| FileTail.RotationStartsOver | internal/logs/file.go:71-87 | After a replacement is noticed the lines emitted are exactly the whole lines of the new file from its start |
| Rules.Rule.Append | internal/logs/logs.go:53 | Appends a hit, moving to a larger buffer when full |
| Rules.Rule.Compact | internal/logs/logs.go:54-61 | Compaction in the same buffer keeps exactly the hits not before the cut, in order |
| Rules.SinceIsSuffix | internal/logs/logs.go:54-61 | Of times in order the compaction keeps all from the first that is not before the cut |
| Rules.Rule.Match | internal/logs/logs.go:52-70 | Whether the rule fires and the hits and last firing it keeps |
| Rules.WindowIsHistory | internal/logs/logs.go:52-70 | For non-decreasing call times the compacted hits are the full history cut to the window, and lastAlert is the last firing |
| Rules.FiresIff | internal/logs/logs.go:62-69 | A call fires exactly when the window over the full history holds at least Count hits and no firing was less than Cooldown ago |
| Rules.FiringsApart | internal/logs/logs.go:65-69 | Any two firings are at least Cooldown apart |
| Protowire.AppendVarint | internal/protowire/protowire.go:81-87 | The loop appends the base 128 digits of the value |
| Protowire.NextDigit | internal/protowire/protowire.go:91-92 | A digit shifted in 64-bit arithmetic lands above those read before, so setting its bits adds it; of the tenth only one bit remains |
| Protowire.ReadVarint | internal/protowire/protowire.go:89-98 | The loop returns the value modulo 2^64 of the first varint and its length, or none within ten bytes |
| Protowire.VarintRoundTrip | internal/protowire/protowire.go:81-98 | Reading undoes writing for every 64-bit value and any bytes after it |
| Protowire.ReadThenWrite | internal/protowire/protowire.go:81-98 | Writing undoes reading exactly for minimal encodings of 64-bit values |
| Protowire.ReadMessage | internal/protowire/protowire.go:32-61 | The parsing loop returns the specified fields or stops as specified |
| Protowire.Get | internal/protowire/protowire.go:64-71 | The first field with the number, or none exactly when there is none |
| Protowire.FieldLocal | internal/protowire/protowire.go:35-58 | A field is read from its own bytes alone |
| Protowire.ParseConcat | internal/protowire/protowire.go:32-61 | If a parses, parsing a followed by b gives the fields of a and then whatever parsing b gives |
| Protowire.WriteString | internal/protowire/protowire.go:74-78 | The writer produces tag, length and bytes |
| Protowire.StringRoundTrip | internal/protowire/protowire.go:74-78 | A string field parses back with its bytes and its number modulo 2^61, the number itself exactly from 0 to below 2^61 |
| Protowire.VarintField | internal/protowire/protowire.go:41-47 | A tag and a varint parse to a field with the varint's value |
| Protowire.OtherWires | internal/protowire/protowire.go:34-57 | Other wire types are refused with their number, and the tag 0 as truncated, whatever follows |
| Protowire.CutString | internal/protowire/protowire.go:48-51 | Every proper, non-empty prefix of a string field is reported as truncated |
| Protowire.SpecificationExamples | internal/protowire/protowire.go:32-98 | The encoding specification's examples: 150, and a message of a varint and a string field |
| Protowire.MessageRoundTrip | internal/protowire/protowire.go:32-78 | Any list of string fields, one after the other, parses back to that list in order |
| Protowire.PanicsIff | internal/protowire/protowire.go:48-55 | Parse returns fields or an error except exactly when a length of 2^63 or more follows a well-formed prefix |
| Protowire.PanicsHappen | internal/protowire/protowire.go:48-55 | Such an input: field 0, length-delimited, of length 2^63 |

## Left out

- Bech32 works over ASCII strings; what ToLower and ToUpper do beyond ASCII, and the helper HRP, are not modelled.
- BIP-0173's guarantee for four scattered errors is a finite computation about the generators and is not claimed.
- Delivery inside `fire` (goroutines, timeouts, the observer) is not modelled; the engine's results are about decisions under the lock. The card results assume delivery in order, with any number of attempts.
- A destination is its kind: `Alert.Fields`, `Alert.Scoped`, the resolver's own logic and the notifier configurations it merges are not modelled, but for the bot and channel of each Telegram delivery. The resolver's answer is a parameter.
- EngineRuns.RunPairs: a reminder tick counts an entry as sent even when its destination no longer applies to it, as the code does; the history records it so.
- EngineRuns: a run is any sequence of locked sections, a superset of the interleavings of whole calls, so its results hold for those.
- EngineCalls.CallsAreRuns: a whole call has one clock reading, and a reminder tick's sends are not compared with its section, which counts every due entry; EngineSilences.QuietTick and EngineState.ReminderMeans are about those.
- EngineSilences.HeldAreConserved: one call's clock readings are taken to be equal; between two readings a silence could end and the alert would be held until the next release.
- EngineCards.CardsFollowEngine: persisting the cards and dropping those older than seven days on load are not modelled; nor are message texts, rendering, humanizing and the bot token's use.
- Regular expressions are a parameter: which patterns compile and what they match in full.
- BlockEvents.Signed: letter case is folded for ASCII only, and the ratio is a real number, without rounding.
- Counters are unbounded numbers; the 64-bit counters of the code would wrap after 2^63 blocks.
- Stall.RaiseIffSilent: the clock is taken not to run backwards, as a process's own clock does not; Stall.RaiseIffLastSigns needs no such clock.
- The alarms for missing endpoints, lag, disks, mempool, EVM endpoints, window percentage and inactivity repeat one latch or one branch and are left out, as are metrics and logging.
- Docker's raw stream of a TTY container, cancelling a stream in the middle of a line, and the HTTP request are not modelled.
- FileTail.RotationStartsOver: lines of the old file written after the last poll before the replacement are lost in the code, and nothing is promised about them. Measuring a file right after opening it is taken to succeed.
- Rules.Rule.Match: adding and subtracting times does not overflow. `Compile`, which fills in the defaults, is left out.
- Protowire: setting the bits of a shifted digit is modelled as adding it, which Protowire.NextDigit justifies: the digit lies above all bits set before.
