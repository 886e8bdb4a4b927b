# Hydra: verified models of the network core

Hydra routes a user's traffic through configured relays, discovered providers and chains of peers, meters what
passes, and keeps credit for users and earnings for providers. This project models the parts of it that carry
protocol state, money or routing decisions, and proves what they promise over every input, every schedule and every
run.

- **Circuits** (`Wire`, `Circuit`, `CircuitProgress`, `TunnelHandler`, `OnionRouter`): a multi-hop circuit as byte
  streams between any number of hops. Handlers, target and crashes interleave as they like. If building succeeds,
  every hop has read exactly its own frame and pipes to its successor, no control byte is left anywhere, and what
  follows is a transparent byte channel to the target. It can succeed, and waiting for an answer never deadlocks.
- **Relay rendezvous** (`RelaySession`, `RelayQuota`): one provider and one consumer paired by a worker, driven by
  any sequence of socket events. Frames keep their order, no frame reaches a consumer early, and every counted byte
  is charged once, discarded in a named place, or still being counted. Whose frames these are is stated exactly, and
  the daily quota is followed to what it really bounds.
- **Credit** (`CreditLedger`, `CreditRuns`, `Throttle`, `MobileCredit`, `CreditGate`): debt in closed form, totals
  conserved through logins and merges, speed that never improves by using more, nudges kept apart.
- **Providers** (`ProviderMetrics`, `Settlement`): incremental statistics equal to their recomputation from history,
  and the consumers' debt reconciled with the providers' earnings over all that the proxy serves.
- **Routes** (`Sequences`, `StableSort`, `Discovery`, `Transports`, `RoutePlan`): risk scores that do not depend on
  order, two stable sorts that are one lexicographic order, and credit that decides what a plan may hold.
- **Connections** (`Failover`, `Registry`, `EchBreaker`): one reply to each request, failures recorded once each, no
  handler disturbing another's connection, fair eviction, and the ten-minute gate on Encrypted Client Hello.
- **Text** (`Digits`, `MoneyText`, `TargetText`): money that survives print and parse, three printers that agree,
  and targets that two languages split alike.

`Sums` holds what several of these share: totals over maps, and walks held at zero. Source code that updates an
object is modelled by a class whose methods are tied to a transition function; the claims over runs are about that
function. Stores (`sled`, key-value, JSON) are maps read and written whole. Every `f64` is a real number, so
rounding and NaN are not modelled; money and counters are integers with their widths and saturation written out.
Clocks, network outcomes, quota waits and schedules are inputs, all of them possible.

## Where the code does less than it promises

Each of these is a lemma, with the exact condition, an input that shows it, or both.

- A final target longer than 65535 bytes is cut to its length modulo 65536, and one that reads as `peer:` opens
  another hop instead (`TunnelHandler.FinalTargetExactly`, `TunnelHandler.LongTargetIsCut`,
  `TunnelHandler.PeerTargetOpensHop`).
- A quota charge that does not fit is dropped whole, so a device is refused only when some charge fills its record to
  the byte; charges larger than the limit are never recorded (`RelayQuota.AllRecordedExactly`,
  `RelayQuota.RefusedExactly`, `RelayQuota.EqualChargesRefused`, `RelayQuota.OversizedChargesAreFree`).
- Calls on the quota that overlap lose charges: the record is complete only if none found it changed since its read
  (`RelayQuota.OverlapsRecordAllExactly`, `RelayQuota.OverlapLoses`).
- The check that a provider is free does not hold by the time a consumer is accepted; the second consumer discards
  the first one's count (`RelaySession.BusyCheckDoesNotHold`). It holds unless another consumer was accepted in
  between and its turn still stands (`RelaySession.BusyCheckHoldsExactly`).
- Sockets are handled by role. A consumer that was replaced can still send, to the other one's target and on the other
  one's account, and a provider that was replaced can still say `ready` and be heard
  (`RelaySession.HeldConsumersOwnExactly`, `RelaySession.ReplacedConsumerStillSends`,
  `RelaySession.HeldProvidersOwnExactly`, `RelaySession.ReplacedProviderStillSpeaks`).
- Replacing a provider does not end the consumer's turn, so its stream is split: the new provider has been sent all of
  it only if no other was sent anything (`RelaySession.HeldProviderSentAllExactly`, `RelaySession.StreamIsSplit`).
- The close of a replaced provider drops its replacement (`RelaySession.ProviderHeldExactly`,
  `RelaySession.ReplacementIsDropped`).
- With no payments asked for, an account is stored locked although it should be unlocked
  (`CreditRuns.UnlockExactly`).
- A direction of a connection that ends in an error is not billed, although the registry counted its bytes
  (`Failover.BilledExactly`, `Failover.CutOffIsFree`).
- A connection whose client cannot be answered stays active in the registry for ever (`Failover.HandleConnect`,
  `Registry.ActiveExactly`).
- An account merged away forgets its last nudge, and is nudged again as soon as it owes enough
  (`CreditRuns.NudgedAgainExactly`, `MobileCredit.MergeForgetsNudge`).
- A domain that starts with a bracket is recovered only if its one closing bracket is its last character
  (`TargetText.ProxySplitsExactly`, `TargetText.WorkerSplitsExactly`, `TargetText.BrokenBracketIsLost`).
- A domain with a bracket at its end or a broken pair of them is classified by the proxy as one host and connected to by
  the worker as another (`TargetText.SameHostExactly`, `TargetText.HostsCanDiffer`).

## Model

| member | source | states |
|---|---|---|
| `Wire.FrameCutsExactly` | hydra-core/src/onion.rs:30-35 | a length-prefixed frame is cut off exactly at its end and gives its text back if and only if the text fits the sixteen-bit length |
| `Wire.AsciiIsUtf8` | hydra-p2p/src/lib.rs:571-575 | peer texts pass the handler's UTF-8 check |
| `Circuit.StepKeepsBuilding` | hydra-p2p/src/lib.rs:557-644 | whatever any handler, the target or a crash does next, the circuit under construction stays as the initiator believes: frame k in flight in pieces, or answered, and nothing else anywhere |
| `Circuit.RunKeepsBuilding` | hydra-p2p/src/lib.rs:557-644 | the same over every schedule of any length |
| `Circuit.RefusalIsFinal` | hydra-p2p/src/lib.rs:605-608 | once hop k has refused, no schedule contacts any further hop |
| `CircuitProgress.SchedulesEnd` | hydra-p2p/src/lib.rs:564-603 | while a circuit is being built every handler move that changes anything leaves less to do, so no schedule keeps the handlers busy for ever |
| `CircuitProgress.StillMeansAnswered` | hydra-core/src/onion.rs:34-38 | with all hops alive, where no handler can move the initiator has its answer: every schedule that goes on while it can brings it |
| `CircuitProgress.AnswerComes` | hydra-core/src/onion.rs:34-46 | with all hops alive, over any number of hops and from any arrangement of the bytes, a frame in flight can be brought a good answer by some schedule and a refusal by another, and an answer given can be brought home |
| `CircuitProgress.CircuitCanBeBuilt` | hydra-core/src/onion.rs:20-67 | for every path of known peers and every target within reach, writes, network moves and reads exist that take the opened stream to the whole circuit with one zero byte read a hop |
| `Circuit.CircuitIsByteChannel` | hydra-p2p/src/lib.rs:594-603 | through an established circuit the target receives a prefix of what was written and the initiator a prefix of what was sent, in order, nothing added or repeated |
| `Circuit.LegsAreProper` | hydra-core/src/onion.rs:26-55 | the frames the initiator sends make each hop route to the next peer and the last one to the target |
| `TunnelHandler.HandleIncomingTunnel` | hydra-p2p/src/lib.rs:557-644 | the handler consumes its header and not a byte more, routes by it, and answers one byte exactly when it connected or was refused |
| `TunnelHandler.RoutesExactly` | hydra-p2p/src/lib.rs:571-640 | a header leads nowhere if and only if it is not text or names an unknown peer, to a refusal if and only if the connection fails, and otherwise to exactly the peer or the address it is |
| `TunnelHandler.HandlerIsNetworkSteps` | hydra-p2p/src/lib.rs:564-592 | that handler is the network's byte-by-byte reading followed by one decision |
| `TunnelHandler.FinalTargetExactly` | hydra-core/src/onion.rs:49-55 | the last hop takes the target's frame whole and connects to exactly that target if and only if it fits 65535 bytes and does not read as a peer |
| `TunnelHandler.PeerTargetOpensHop` | hydra-p2p/src/lib.rs:577-592 | a final target naming a known peer opens another hop |
| `TunnelHandler.LongTargetIsCut` | hydra-core/src/onion.rs:49-55 | a final target of 65536 bytes makes the last hop connect to the empty address, and is piped on itself |
| `TunnelHandler.BuiltMeans` | hydra-core/src/onion.rs:60-67 | a built circuit has hop i at path[i] piping to path[i+1], the last to the target, each with exactly its own frame read and no control byte in any channel |
| `OnionRouter.TunnelStream.Ask` | hydra-core/src/onion.rs:34-46 | naming the next party and reading one byte either advances the circuit by a hop, ends it at a refusal, or leaves it where it was |
| `OnionRouter.BuildCircuit` | hydra-core/src/onion.rs:15-68 | for every schedule and fate of its operations: the stream error is returned if and only if an operation failed or found its stream ended, success if and only if none did and every answer read was zero, and then the whole circuit stands; a rejection names the hop that refused, with no hop after it contacted |
| `RelaySession.FramesInOrder` | hydra-relay-worker/src/index.ts:598-626 | over every event sequence, the frames sent this turn to all providers followed by the buffer are the frames this turn of all consumer-role sockets, in order; the buffer holds at most 64 and is empty when a ready provider is present |
| `RelaySession.HeldProviderSentAllExactly` | hydra-relay-worker/src/index.ts:499-516 | the held provider was sent all of a turn's frames if and only if none went to another provider |
| `RelaySession.StreamIsSplit` | hydra-relay-worker/src/index.ts:499-516 | one consumer's stream is split over two providers when the second registers in its turn |
| `RelaySession.HeldConsumersOwnExactly` | hydra-relay-worker/src/index.ts:472-479 | those frames are the held consumer's own if and only if no other consumer-role socket sent one in this turn |
| `RelaySession.ReplacedConsumerStillSends` | hydra-relay-worker/src/index.ts:472-493 | a consumer that another has replaced can send in the other's turn, and the other's device is charged for it |
| `RelaySession.DeliveredAfterReady` | hydra-relay-worker/src/index.ts:566-596 | a frame of any provider-role socket reaches only the latest accepted consumer, and only after a ready handled after that acceptance and after the latest registration |
| `RelaySession.EveryoneIsTold` | hydra-relay-worker/src/index.ts:499-616 | over every event sequence, the notices to providers, the messages to consumers and the sockets closed with their codes are exactly those due, in order, to whom they are due: each target to the provider held when its consumer was accepted, `ready` to the consumer held, `close` at each close of a consumer-role socket, 1012, 1011, 1000 and 1013 at their endings |
| `RelaySession.LatestPays` | hydra-relay-worker/src/index.ts:538-546 | charges are made for the device and under the limit of the latest acceptance |
| `RelaySession.AdmittedExactly` | hydra-relay-worker/src/index.ts:518-531 | 503, 409 and 400 are answered exactly when no provider, a standing acceptance, or no target is there |
| `RelaySession.HeldProvidersOwnExactly` | hydra-relay-worker/src/index.ts:472-479 | while ready, the consumer is sent the frames of all provider-role sockets in order, and these are the held provider's own if and only if no other provider-role socket sent one |
| `RelaySession.ReplacedProviderStillSpeaks` | hydra-relay-worker/src/index.ts:499-516 | a provider that another has replaced can declare the session ready and reach the consumer |
| `RelaySession.ReadyIsFresh` | hydra-relay-worker/src/index.ts:499-555 | readiness always stems from a ready, of whichever provider-role socket, later than the last acceptance and the last registration |
| `RelaySession.BytesConserved` | hydra-relay-worker/src/index.ts:481-493 | bytes counted are bytes charged, plus bytes discarded at provider close and at acceptance, plus the present count |
| `RelaySession.ChargedOnceAtEnds` | hydra-relay-worker/src/index.ts:572-616 | error, closed, consumer close and overflow each charge the exact count once, and nothing else charges |
| `RelaySession.BusyCheckDoesNotHold` | hydra-relay-worker/src/index.ts:518-546 | two consumers that both passed the busy check can both be accepted, and the first one's count is lost |
| `RelaySession.BusyCheckHoldsExactly` | hydra-relay-worker/src/index.ts:518-546 | a provider found free is still free at acceptance unless, and only unless, another consumer was accepted during the wait and its turn still stands |
| `RelaySession.ConsumerHeldExactly` | hydra-relay-worker/src/index.ts:518-555 | over every event sequence a consumer is held if and only if some acceptance with a provider present has not been ended or replaced since |
| `RelaySession.ProviderHeldExactly` | hydra-relay-worker/src/index.ts:481-516 | a provider is held if and only if one registered after the last close of any provider-role socket, and it is the last registered |
| `RelaySession.ReplacementIsDropped` | hydra-relay-worker/src/index.ts:483-510 | the close of a replaced provider, which the session asked for, drops its replacement |
| `RelaySession.RecordedIsCounted` | hydra-relay-worker/src/index.ts:40-72 | over any sessions whose charges reach the store in any order and overlap as they may, a device's record gains no more than the sessions counted, and all that was charged if and only if every call is over, found room, and found the record as it still was |
| `RelaySession.Drive` | hydra-relay-worker/src/index.ts:442-667 | the session class, event by event, is the run of the transition function |
| `RelaySession.HydraProviderSession.AcceptProvider` | hydra-relay-worker/src/index.ts:499-516 | replaces the provider, clears readiness and leaves the consumer's buffer |
| `RelaySession.HydraProviderSession.CommitConsumer` | hydra-relay-worker/src/index.ts:538-554 | installs the consumer with an empty count and buffer, or undoes it when the provider has gone |
| `RelaySession.HydraProviderSession.WebSocketMessage` | hydra-relay-worker/src/index.ts:472-479 | a message is handled by its socket's role, whether or not the session still holds that socket |
| `RelaySession.HydraProviderSession.HandleProviderMessage` | hydra-relay-worker/src/index.ts:557-596 | ready flushes, error and closed end the turn and charge, binary frames are counted and delivered only when ready |
| `RelaySession.HydraProviderSession.HandleConsumerMessage` | hydra-relay-worker/src/index.ts:598-616 | forwards, buffers, or overflows into a charged end |
| `RelaySession.HydraProviderSession.WebSocketClose` | hydra-relay-worker/src/index.ts:481-493 | a provider's close drops the count, a consumer's charges it |
| `RelaySession.HydraProviderSession.FlushBufferedConsumerFrames` | hydra-relay-worker/src/index.ts:618-626 | sends the whole buffer in order to a ready provider, else nothing |
| `RelayQuota.QuotaStore.CheckAndUpdate` | hydra-relay-worker/src/index.ts:40-72 | answers and rewrites one record as the quota rule says, and touches no other |
| `RelayQuota.NeverOverLimit` | hydra-relay-worker/src/index.ts:61-71 | a record never exceeds its limit, never shrinks, and never gains more than was handed over |
| `RelayQuota.AllRecordedExactly` | hydra-relay-worker/src/index.ts:61-71 | everything handed over is on record if and only if all of it fits |
| `RelayQuota.AnsweredExactly` | hydra-relay-worker/src/index.ts:59-71 | a call answers what is left afterwards, and yes if and only if anything was left before |
| `RelayQuota.RefusedExactly` | hydra-relay-worker/src/index.ts:532-536 | under one limit a device is refused if and only if some charge filled, to the byte, what those before it had left |
| `RelayQuota.EqualChargesRefused` | hydra-relay-worker/src/index.ts:61-71 | a device charged in equal parts is refused if and only if the parts divide the limit and enough of them have come |
| `RelayQuota.OversizedChargesAreFree` | hydra-relay-worker/src/index.ts:61-71 | any charges each over its limit leave no record, and the device admitted with its whole quota |
| `RelayQuota.OverlapsNeverOvercharge` | hydra-relay-worker/src/index.ts:40-72 | however calls on one record overlap between read and write, it keeps its limit and gains no more than was handed over |
| `RelayQuota.OverlapsRecordAllExactly` | hydra-relay-worker/src/index.ts:40-72 | the record holds all that finished calls handed over if and only if each found room and no other call changed the record between its read and its write |
| `RelayQuota.OverlapLoses` | hydra-relay-worker/src/index.ts:40-72 | two equal calls that overlap leave the record of one |
| `RelayQuota.InTurnIsCharged` | hydra-relay-worker/src/index.ts:40-72 | calls that do not overlap leave what charging in order leaves |
| `Throttle.UtilizationMonotone` | hydra-econ/src/credit.rs:232-233 | more debt or a smaller limit is more utilization |
| `Throttle.FactorInRange` | hydra-econ/src/credit.rs:235-245 | for a sensible policy the speed factor stays between the minimum and one |
| `Throttle.FactorMonotone` | hydra-econ/src/credit.rs:234-245 | more utilization never gives a higher speed |
| `Throttle.FactorExactly` | hydra-econ/src/credit.rs:234-245 | full speed below the soft threshold, the minimum from fallback on, and the straight line between them |
| `Throttle.FactorFalls` | hydra-econ/src/credit.rs:234-245 | speed falls strictly from the soft threshold to fallback, unless the minimum is full speed |
| `Throttle.RateLimitMonotone` | hydra-core/src/lib.rs:446-458 | a lower factor never allows a transport more bytes a second, and a cap is never below 16384 |
| `Throttle.CappedExactly` | hydra-core/src/lib.rs:446-449 | there is no cap if and only if the transport is free or the factor at least 0.999 |
| `Throttle.CapIsShare` | hydra-core/src/lib.rs:451-457 | a cap is the factor's share of the advertised bandwidth to the nearest byte, or 16384, and never more than what is advertised or that |
| `CreditLedger.Ledger.AcceptTrial` | hydra-econ/src/credit.rs:111-121 | marks the trial and sets the tier by payments made |
| `CreditLedger.Ledger.RecordUsage` | hydra-econ/src/credit.rs:123-151 | adds usage and the rounded-up price with saturation, and rewrites that one account |
| `CreditLedger.Ledger.RecordPayment` | hydra-econ/src/credit.rs:153-174 | takes the payment off the debt down to nothing, counts it and grows the limit |
| `CreditLedger.Ledger.MergeAccounts` | hydra-econ/src/credit.rs:180-223 | folds one account into another and removes it, or does nothing but open the target |
| `CreditLedger.Ledger.CheckCredit` | hydra-econ/src/credit.rs:225-263 | refreshes the account and reports its status |
| `CreditLedger.StatusExactly` | hydra-econ/src/credit.rs:225-263 | premium if and only if on trial or paid terms and owing less than the fallback share of the limit; full speed below the soft share, the minimum from the fallback share on |
| `CreditLedger.Ledger.ShouldNudge` | hydra-econ/src/credit.rs:265-307 | picks the nudge by thresholds, at most one an interval, and records its time |
| `CreditLedger.NudgeKinds` | hydra-econ/src/credit.rs:273-299 | which nudge is sent is decided by utilization alone: alarm from fallback on, urging from the soft threshold up to it, reminder below both |
| `CreditLedger.GrownExactly` | hydra-econ/src/credit.rs:162-166 | a payment earns the old limit times the growth factor to the nearest unit, as far as an `i64` goes |
| `CreditRuns.DebtWalksExactly` | hydra-econ/src/credit.rs:123-223 | through any operations, payments of any `i64` amount and merges either way included, the stored debt is the account's walk of charges, payments and merged debts held at zero, if and only if that walk never passes the largest i64 |
| `CreditRuns.DebtClosedForm` | hydra-econ/src/credit.rs:160-160 | the debt is the largest sum, over all ends of the run, of what was charged and brought in less what was paid and taken away |
| `CreditRuns.DebtWithoutPayments` | hydra-econ/src/credit.rs:134-137 | where nothing is paid or merged away, the debt is the sum of charges and of debts brought in, stopped at the largest i64 |
| `CreditRuns.UnlockExactly` | hydra-econ/src/credit.rs:334-341 | stored unlock flags agree with the payment counts through any run, merges included, if and only if at least one payment is asked for |
| `CreditRuns.StandsExactly` | hydra-econ/src/credit.rs:111-174 | through any operations that do not merge it, an account counts its payments and the last one's time, is on trial if and only if one was accepted, and is Paid once paid for, Credit on trial alone, Free before |
| `CreditRuns.MergeKeepsBest` | hydra-econ/src/credit.rs:195-221 | a merged account has the larger limit, the more payments and the later one, a trial if either had, and its own last nudge |
| `CreditRuns.LimitAfterPayment` | hydra-econ/src/credit.rs:162-166 | a payment sets the limit to the grown one or to the base limit if that is more |
| `CreditRuns.LimitOnlyGrows` | hydra-econ/src/credit.rs:334-341 | whatever is not a payment leaves a limit or lifts it to a base limit or a merged account's |
| `CreditRuns.OpensAtBase` | hydra-econ/src/credit.rs:309-332 | a new account starts with the trial's limit, or the linked one's |
| `CreditRuns.NudgedExactly` | hydra-econ/src/credit.rs:265-307 | after any operations a reminder nudges if and only if the account owes at least the least threshold and the interval since its last nudge is over; being merged away counts as never nudged |
| `CreditRuns.NudgedAgainExactly` | hydra-econ/src/credit.rs:265-307 | the next nudge after one is sent if and only if the account owes enough and the interval is over since that one, or since the start of time if the account was merged away in between |
| `CreditRuns.NudgesApart` | hydra-econ/src/credit.rs:271-304 | any two nudges of one account are at least the interval apart whatever the clock does, or the account was merged away in between |
| `CreditRuns.MergeTwiceIsOnce` | hydra-econ/src/credit.rs:186-193 | repeating a merge changes nothing |
| `CreditRuns.UsageNeverHelps` | hydra-econ/src/credit.rs:123-151 | recording usage never speeds a user up, grants premium or raises a rate cap |
| `CreditRuns.PaymentNeverHurts` | hydra-econ/src/credit.rs:153-174 | with growth of at least one, a payment never slows a user down, revokes premium or lowers a rate cap |
| `MobileCredit.Controller.ResolveAnchorContext` | hydra_mobile/rust/src/credit_runtime.rs:325-351 | names the account meant and merges the installation's into a newly seen user's, once |
| `MobileCredit.Controller.RecordUsage` | hydra_mobile/rust/src/credit_runtime.rs:484-502 | records priced transfers, counted as at least one second, on the resolved account, and free ones not at all |
| `MobileCredit.Controller.CurrentStatus` | hydra_mobile/rust/src/credit_runtime.rs:472-482 | reports the resolved account's status |
| `MobileCredit.LedgerConserves` | hydra_mobile/rust/src/credit_runtime.rs:325-351 | over any transfers, logins, logouts and switches, ledger-wide bytes, seconds and debt never exceed what was recorded and equal it while it fits |
| `MobileCredit.MergeForgetsNudge` | hydra_mobile/rust/src/credit_runtime.rs:325-351 | transfer, reminder, login, status, logout, transfer, reminder: the installation is nudged twice at one moment |
| `MobileCredit.MergeKeepsTotal` | hydra-econ/src/credit.rs:195-221 | a merge moves totals between accounts and loses none below the cap |
| `MobileCredit.ChargedToUser` | hydra_mobile/rust/src/credit_runtime.rs:325-351 | a priced transfer is charged to whoever is logged in, else to the installation; a user first seen takes over the installation's debt, and no other account is touched |
| `CreditGate.PremiumNeedsCredit` | hydra-core/src/lib.rs:259-288 | a premium transport is planned only for an account on trial or paid terms below its fallback share |
| `CreditGate.UsageNeverBuysPremium` | hydra-core/src/lib.rs:259-288 | an account without premium gets none by using more, on any target, mode or routes |
| `CreditGate.PlanFromOffers` | hydra-core/src/discovery.rs:150-215 | for any offers listed and announced, any provider records and any credit: a target is proxied if and only if the mode asks for it and it is not the relay's own, and the plan holds exactly the transports that fit, each price class by reputation, bandwidth and risk-adjusted score, configured ones in order, no premium without credit, and free before premium by policy |
| `CreditGate.DebtSetsSpeed` | hydra-core/src/lib.rs:446-458 | nothing is capped below the soft share of the limit, and in fallback premium is refused |
| `ProviderMetrics.MetricsLedger.RecordSuccess` | hydra-econ/src/provider.rs:48-86 | rewrites one agent's statistics by one success |
| `ProviderMetrics.MetricsLedger.RecordFailure` | hydra-econ/src/provider.rs:88-102 | rewrites one agent's statistics by one failure |
| `ProviderMetrics.MetricsAreFaithful` | hydra-econ/src/provider.rs:48-102 | after any history the averages are the exact means of the successes, uptime the exact share, and recent failures the walk held at zero |
| `ProviderMetrics.LedgerKeepsAgentsApart` | hydra-econ/src/provider.rs:48-102 | however records of several agents interleave, each agent's statistics are those of its own history |
| `ProviderMetrics.RecentFailuresClosedForm` | hydra-econ/src/provider.rs:73-91 | recent failures are the largest excess of failures over successes at the end of the history, and at most all failures |
| `ProviderMetrics.ScoreInRange` | hydra-econ/src/provider.rs:196-203 | before any session the score is 50; after any history with one it is the raw score, between 5 and 100, so its clamp never acts |
| `ProviderMetrics.ScoreExactly` | hydra-econ/src/provider.rs:196-203 | more throughput or uptime never lowers the score, more latency or failures never raise it, by stated amounts below their caps |
| `ProviderMetrics.TalliesAreFaithful` | hydra-econ/src/provider.rs:48-102 | bytes are those of all successes, the last session is the last recorded one, and the pending delta is what the sessions since the last report come to |
| `ProviderMetrics.ThroughputExactly` | hydra-econ/src/provider.rs:61-72 | megabits a second times the seconds are the megabits |
| `ProviderMetrics.FailureNeverHelps` | hydra-econ/src/provider.rs:88-102 | a failed session never raises the score, and lowers it if and only if there was a success to dilute or fewer than five recent failures |
| `Settlement.KeepBooks` | hydra-core/src/lib.rs:353-393 | the two ledgers kept by serving requests and handing over their bills are those of the run the claim is about |
| `Settlement.DebtCoversEarnings` | hydra-core/src/lib.rs:353-393 | over any served requests, with failed dials, broken copies, logins and merges between them, the debt of all accounts exceeds all agents' earnings by between nothing and one micro-USDC a visit on a priced transport |
| `Settlement.SplittingCosts` | hydra-econ/src/credit.rs:363-366 | splitting a transfer into n pieces overcharges by at most n - 1 and never undercharges |
| `Settlement.ChargeCoversEarnings` | hydra-econ/src/provider.rs:223-230 | the rounded-up charge and the rounded-down earnings of the same bytes differ by at most one |
| `Settlement.ChargeExactly` | hydra-econ/src/credit.rs:363-366 | a charge is the price of the bytes rounded up to a whole micro-USDC |
| `StableSort.SortInPlace` | hydra-core/src/discovery.rs:317-330 | the slice ends as its stable sort |
| `StableSort.SortIsLexicographic` | hydra-core/src/lib.rs:483-496 | a stable sort of something ordered on ties is the lexicographic order |
| `StableSort.SortIsStable` | hydra-core/src/discovery.rs:318-329 | elements that tie keep their order |
| `Transports.BuildTransports` | hydra-core/src/transport/mod.rs:105-141 | all configured entries become non-premium transports in order, or one bad entry fails them all |
| `Discovery.FlagsAgree` | hydra-core/src/discovery.rs:221-292 | the route's and its transport's premium flags agree for offers and for gossip |
| `Discovery.OffersExactly` | hydra-core/src/discovery.rs:221-315 | which offers become routes, and with what kind, reputation, source and base score |
| `Discovery.BaseScoreExactly` | hydra-core/src/discovery.rs:420-434 | each Mbit/s counts 1, each unit of reputation 20, being free 10, each USDC a gigabyte costs 15 off |
| `Discovery.TransportExactly` | hydra-core/src/discovery.rs:31-65 | a transport offers what its route does |
| `Discovery.MedianOf` | hydra-core/src/discovery.rs:461-467 | the middle element once sorted, or none |
| `Discovery.MedianByRank` | hydra-core/src/discovery.rs:461-467 | the median is one of the values, with at most half below it and at most half above |
| `Discovery.Survey` | hydra-core/src/discovery.rs:337-348 | positive prices in order and a count of every host |
| `Discovery.ApplyRiskPenalties` | hydra-core/src/discovery.rs:332-412 | every route of the slice is rescored in place against the scene of all |
| `Discovery.JudgedTogether` | hydra-core/src/discovery.rs:337-354 | every route of a slice is judged by the median of their positive prices and by how many share its host |
| `Discovery.LowPriceCosts` | hydra-core/src/discovery.rs:365-369 | of two routes that differ in no more, one whose price is suspiciously low scores 18 less, and never more |
| `Discovery.YouthCosts` | hydra-core/src/discovery.rs:371-373 | the younger than a day 4 less |
| `Discovery.NoStakeCosts` | hydra-core/src/discovery.rs:375-379 | the one with nothing staked 12 less |
| `Discovery.GossipCosts` | hydra-core/src/discovery.rs:375-379 | the one known from gossip 12 less |
| `Discovery.FewReportsCost` | hydra-core/src/discovery.rs:381-383 | the one with fewer than three reports 4 less |
| `Discovery.BadReputationCosts` | hydra-core/src/discovery.rs:385-386 | the one of worse reputation 18 less for each unit below zero |
| `Discovery.PraiseCounts` | hydra-core/src/discovery.rs:387-389 | the one of better reputation 12 more for each unit above zero, given any report |
| `Discovery.SharedHostCosts` | hydra-core/src/discovery.rs:391-397 | the one on a shared host 3 less for each of the others there |
| `Discovery.BadRegionCosts` | hydra-core/src/discovery.rs:399-401 | the one without a two-letter region 6 less |
| `Discovery.RecordCounts` | hydra-core/src/discovery.rs:403-408 | the one whose agent's record is worth less, by 35 percent of the score and 2 for each of up to five recent failures, that much less |
| `Discovery.RiskIgnoresOrder` | hydra-core/src/discovery.rs:332-412 | permuting the routes permutes the rescored ones and changes no score; scores end non-negative and nothing else changes |
| `Discovery.FailureDemotes` | hydra-core/src/discovery.rs:403-411 | a session that fails never raises the score of any of its agent's routes, and changes no other route's |
| `Discovery.SortRoutes` | hydra-core/src/discovery.rs:317-330 | the slice ends as its stable sort by price class and score |
| `Discovery.SortedRoutes` | hydra-core/src/discovery.rs:317-330 | the sort is a permutation, by score within a price class, with free routes first when preferred |
| `Discovery.PremiumIsBetterExactly` | hydra-core/src/discovery.rs:169-182 | premium counts as better if and only if some premium route beats every free one by more than fifteen percent |
| `RoutePlan.GetTransports` | hydra-core/src/discovery.rs:184-215 | the buildable routes that the mode and the credit let through, in order |
| `RoutePlan.OrderCandidates` | hydra-core/src/lib.rs:460-509 | three groups, two of them sorted, joined by credit policy |
| `RoutePlan.PlanConnection` | hydra-core/src/lib.rs:259-288 | configuration, discovery, ordering and selection composed |
| `RoutePlan.ProxiedExactly` | hydra-core/src/lib.rs:577-605 | a target is proxied if and only if it is not the relay's own and the mode is full, or Telegram's for a Telegram target |
| `RoutePlan.PlannedExactly` | hydra-core/src/lib.rs:577-605 | a proxied plan holds exactly the configured transports for such targets and the usable discovered ones that are free or that credit allows |
| `RoutePlan.OrderIsPermutation` | hydra-core/src/lib.rs:470-508 | ordering loses no transport and invents none |
| `RoutePlan.NoPremiumWithoutCredit` | hydra-core/src/discovery.rs:194-202 | without credit no plan holds a premium transport |
| `RoutePlan.CreditOrdersThePlan` | hydra-core/src/lib.rs:498-507 | of a free and a premium transport the premium one comes first if and only if premium is allowed, better and not in fallback |
| `RoutePlan.RankedIsLexicographic` | hydra-core/src/lib.rs:483-496 | each price class is ordered by reputation, then bandwidth, then route score |
| `RoutePlan.RankedExactly` | hydra-core/src/discovery.rs:184-215 | each price class is made of the usable routes of that class, as often as offered |
| `RoutePlan.RankedInOrder` | hydra-core/src/lib.rs:483-496 | of two routes of a class the earlier has the higher reputation, or the same and the higher bandwidth, or both the same and no lower score |
| `RoutePlan.PlanIsLexicographic` | hydra-core/src/lib.rs:577-605 | in any plan discovered free and premium transports are in that order and configured ones in configuration order |
| `Registry.BytesAccounted` | hydra-core/src/connections.rs:129-134 | over any run the byte totals are what was reported for known connections less what was evicted |
| `Registry.IdsNeverReused` | hydra-core/src/connections.rs:95-117 | no two registrations of a run get the same id |
| `Registry.EntryIsOwn` | hydra-core/src/connections.rs:119-220 | over any run a connection's entry is what its own updates alone make of it, whatever other connections do, and while they leave it active no collection takes it |
| `Registry.CountsAreOwn` | hydra-core/src/connections.rs:129-134 | the counts of a connection are the bytes reported for it since it was registered |
| `Registry.ActiveExactly` | hydra-core/src/connections.rs:205-220 | over any run a connection is there and active if and only if nothing has closed it since it was registered |
| `Registry.ShownAsRegistered` | hydra-core/src/connections.rs:95-127 | an entry shows the host and port its target splits into, when and as what it was registered, and the last route reported |
| `Registry.ConnectionRegistry.Register` | hydra-core/src/connections.rs:95-117 | adds an active entry with the split target under the next id |
| `Registry.ConnectionRegistry.UpdateBytes` | hydra-core/src/connections.rs:129-134 | adds to a known connection's counts and to nothing else |
| `Registry.ConnectionRegistry.GetStats` | hydra-core/src/connections.rs:182-202 | counts and byte totals are the sums over the whole table |
| `Registry.ConnectionRegistry.Gc` | hydra-core/src/connections.rs:205-220 | evicts exactly the surplus of closed connections, none younger than any closed one kept, and no active one |
| `Failover.CopyWithRateLimit` | hydra-core/src/lib.rs:413-444 | everything passed on reaches the registry, and the total is returned only after a clean end |
| `Failover.BilledExactly` | hydra-core/src/lib.rs:352-363 | the bytes billed are those counted if and only if each direction ended cleanly or passed nothing |
| `Failover.CutOffIsFree` | hydra-core/src/lib.rs:352-353 | five bytes counted and then a read error are billed as nothing |
| `Failover.DoDirect` | hydra-core/src/lib.rs:511-545 | one direct dial, one reply, every byte reported, and the connection closed if and only if the client could be answered, whatever other connections do meanwhile |
| `Failover.HandleConnect` | hydra-core/src/lib.rs:282-411 | among any other connections registering, counting, closing, being collected and recording at every wait: one reply; the first transport in plan order that connects is used and no later one tried; a proxied plan never dials directly; the connection's own counts are its bytes, it is closed if and only if the client could be answered, and its records in the providers' ledger are one failure for each transport passed over and one success |
| `Failover.HandleRequest` | hydra-core/src/lib.rs:259-411 | planned and served: nothing is dialled directly in full mode, nor for Telegram's targets in its mode, unless it is the relay's own; everything else is dialled directly once; only transports that fit are dialled |
| `Failover.RepliesExactly` | hydra-core/src/socks.rs:95-125 | one ten-byte reply of version 5 with code 0 if something connected and 1 if not |
| `Failover.NotesExactly` | hydra-core/src/lib.rs:364-393 | the providers' ledger is told of a failure of each transport passed over and of all that is known of the one success, and of nothing else |
| `Failover.OneFailureEach` | hydra-core/src/lib.rs:387-393 | each failed transport leaves exactly one failure with its agent |
| `EchBreaker.AllowedExactly` | hydra-core/src/transport/wss.rs:293-305 | an ECH attempt is allowed if and only if no failure is outstanding or the latest is at least 600 s old |
| `EchBreaker.QuietAfterFailure` | hydra-core/src/transport/wss.rs:307-319 | after a failure, and with nothing accepted since, the next allowed attempt is at least 600 s later |
| `EchBreaker.ConnectRelay` | hydra-core/src/transport/wss.rs:224-258 | no attempt if and only if ECH is allowed and published but unusable; else the first has ECH if and only if allowed and published, and one retry with standard TLS follows if and only if that failed, at whatever step |
| `EchBreaker.Breaker.ShouldAttempt` | hydra-core/src/transport/wss.rs:293-305 | answers by the cooldown and clears an expired one |
| `Digits.ParsePrint` | hydra-exchange/src/deal_client.rs:514-526 | parsing a printed number gives it back exactly when it fits the type |
| `Digits.PrintSplit` | hydra-exchange/src/client.rs:466-473 | the digits of a number are its quotient's digits followed by the remainder at full width |
| `MoneyText.UsdcRoundTrip` | hydra-exchange/src/deal_client.rs:495-528 | every u128 amount survives print and parse |
| `MoneyText.PrintersAgree` | hydra-exchange/src/client.rs:448-485 | the three printers give the same text, at any number of decimals the quotient and trimmed remainder, negatives as minus the magnitude |
| `MoneyText.FixedIsCanonical` | hydra-exchange/src/client.rs:457-485 | cutting the digit string agrees with dividing, at every number of decimals |
| `MoneyText.ParsePlain` | hydra-exchange/src/deal_client.rs:507-528 | digits with an optional point and up to six more digits parse to their value |
| `MoneyText.ParseThenPrint` | hydra-exchange/src/deal_client.rs:495-528 | printing a parsed amount strips exactly the zeros that do not count |
| `MoneyText.SameMoneyExactly` | hydra-exchange/src/deal_client.rs:507-528 | two amounts parse alike if and only if their canonical texts are the same |
| `TargetText.ProxySplitsExactly` | hydra-core/src/socks.rs:186-201 | the proxy recovers a printed host and port if and only if the host has no leading bracket or is cleanly bracketed |
| `TargetText.WorkerSplitsExactly` | hydra-relay-worker/src/index.ts:239-267 | the worker recovers the port and the host up to its brackets if and only if moreover there is a host |
| `TargetText.BrokenBracketIsLost` | hydra-relay-worker/src/index.ts:239-267 | from the domain `[a]b` the proxy recovers nothing and the worker `a` on port 443 |
| `TargetText.AddressRoundTrip` | hydra-core/src/lib.rs:189-238 | every IPv4 and IPv6 address and every non-empty domain without a leading bracket survives to both programs with its port |
| `TargetText.OctetsReadBack` | hydra-core/src/lib.rs:189-238 | the four numbers of an IPv4 address are read back from its text in order |
| `TargetText.GroupsReadBack` | hydra-core/src/lib.rs:189-238 | the eight groups of an IPv6 address are read back from its text in order |
| `TargetText.SameHostExactly` | hydra-core/src/socks.rs:149-155 | for any host, the worker connects to the host the proxy classifies by if and only if trimming takes no bracket of the name: a plain host must not end in one, a bracketed one must be cleanly bracketed, not empty, and not start with a second |
| `TargetText.HostsCanDiffer` | hydra-core/src/socks.rs:149-155 | the domain `t.me]` is classified without its bracket and connected to with it |
| `TargetText.SameHostOnBothSides` | hydra-core/src/lib.rs:189-238 | every IPv4 and IPv6 address and every domain that trims cleanly is the same host to both |

## Left out

- BuildCircuit: its contract covers targets of at most 65535 bytes that do not read as a peer and hops whose ids are short ASCII texts; what other targets do at the last hop is `FinalTargetExactly`. Layered encryption does not exist in the code.
- CircuitIsByteChannel: bytes lost when a pipe ends in one direction first are modelled only as bytes that stop moving after a crash.
- StillMeansAnswered: for hops that are all alive; the code has no timeout for one that has died.
- LegsAreProper: for the same targets as `BuildCircuit`.
- FramesInOrder: sends to sockets are taken to succeed, and control messages to have a known shape; a JSON `null` from a provider is not modelled.
- RecordedIsCounted: one day, from no record; a day that ends between charges starts another record.
- BytesConserved: one lifetime of the session object. The runtime may evict it while its sockets stay open, and its count and pairing are then lost.
- RecordPayment: a debt that leaves the `i64` range wraps, as in an unchecked build.
- LedgerConserves: payments are not part of the mobile runtime's events, which never records any.
- MetricsAreFaithful: for histories of at most 2^32 - 1 events, below which no counter saturates; on-chain sync and settlement events may be interleaved.
- FailureNeverHelps: for fewer than 2^32 - 1 events, likewise.
- DebtCoversEarnings: while the charges fit an `i64`, with both ledgers present, and requests settled one after another.
- ApplyRiskPenalties: endpoint hosts and feedback values come from library parsers and are inputs.
- HandleConnect: the two directions of a copy are run one after the other, with others at work between their chunks; store calls are atomic; route labels, error texts and the sleeps of the rate limit are not modelled; the SOCKS5 greeting and non-CONNECT requests are not either.
- PlanConnection: a reading of the routes for the plan and the one for judging premium may differ, so the judgement is an input.
- GetStats: byte totals are unbounded, without the `u64` overflow of a very long run.
- Register: ids are unbounded, without the wrap of the 64-bit counter.
- ParsePlain: amounts past the 128-bit range wrap in the model as in an unchecked build; signs inside the fraction and non-ASCII text are outside the claims.
- AddressRoundTrip: text is ASCII; a domain that is not UTF-8 is replaced by a library before it is printed.
- The Solidity contracts: only their bindings and deploy scripts are in the repository.
- libp2p, TLS, DNS, WebSocket and VLESS internals: each is a success, a failure or a byte channel here.
- The language model, prompts, Telegram client, summarizer, attention tracker, Flutter bridge and VPN tunnel: foreign calls or interface glue.
- The worker's dealer profiles and direct TCP relay: request plumbing around library calls.
- The Telegram address ranges and relay domain list: containment in library types.
- Configuration defaults, `EconLedger` trust, tag and region normalizers and local quota counters would only add easy members.
