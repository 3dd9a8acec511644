# Twitch chat joiner, modelled in Dafny

The bot keeps one IRC connection to Twitch's chat gateway. It polls Twitch's
Helix API for which of its configured streamers are live, and it joins the chat
channels of the streamers who came online and leaves those of the streamers
who went offline. This project models the decision logic of that bot
(`async_twitch.py`) and proves properties of it:

- the start-up check of the configuration file (`validate_config`): three
  ordered phases over an ordered key/value map of JSON values (module
  `ConfigValidation`), and the order in which start-up builds the channel set
  and validates (module `Startup`);
- how the answers of the OAuth token endpoint and of the streams endpoint are
  read, and how the per-streamer answers become the set of live streamers
  (module `Helix`); Python's truthiness, exact `type()` and `str(int)` are in
  module `Python`;
- the commands sent to the gateway: the login handshake with its OAuth
  password prefix, the PONG reply to a PING, and one JOIN or PART per channel
  (module `Irc`);
- the reconciliation loop and the `STREAMER_LISTS` state it updates in place,
  as the class `Reconcile.StreamerLists` with a `Step` method per cycle and a
  `RunCycles` method for the loop (module `Reconcile`).

Network answers, which come from I/O, are inputs: a token answer is a status
code with a parsed JSON body, and a streams answer is a parsed JSON body.
Sending a command is modelled as adding it to the sequence of commands a
method returns.

Behaviour of the code worth knowing:

- A failed poll (a token or streams answer that raises) is not retried on the
  next tick. The exception leaves `main`, so the loop stops. The stored sets
  stay as the last successful cycle left them (`StreamerLists.RunCycles`,
  `PollsAfterFailureIgnored`).
- The offline set holds only the names that went offline in the last cycle.
  A configured streamer who never goes live ends up in neither set
  (`NeverLiveStreamerIsForgotten`).
- Only status 500 fails a token request. Other 5xx codes only log a warning
  (`OtherServerErrorsOnlyWarn`).
- A zero `wait_time` is rejected because it is falsy. A negative one passes
  validation (`ValidatedValues` only promises a non-zero int).

## Model

| member | source | states |
|---|---|---|
| `ConfigValidation.ValidateConfig` | async_twitch.py:31-93 | returns exactly what the three-phase specification `Validate` gives: the first phase that finds an offending key fails with all of its keys, in order; otherwise the result is true |
| `ConfigValidation.CollectErrors` | async_twitch.py:46-53 | each phase's error list has one entry per offending key, in the order the comprehension found them |
| `ConfigValidation.LookupType` | async_twitch.py:34-42 | `required_keys.get(k)` finds a type exactly for the keys the table lists |
| `ConfigValidation.RequiredTypes` | async_twitch.py:34-42 | the type each of the seven required keys must have |
| `ConfigValidation.AbsentKeysMembers` | async_twitch.py:45 | a key is reported missing if and only if it is required and absent from the configuration |
| `ConfigValidation.KeysWhereMembers` | async_twitch.py:59 | a key is listed by a phase-2 or phase-3 comprehension if and only if some entry with that key offends |
| `ConfigValidation.KeysWhereEmpty` | async_twitch.py:69-70 | a phase raises if and only if some entry offends |
| `ConfigValidation.Validate` | async_twitch.py:44-93 | `validate_config` returns true when it returns, and each exception it raises carries at least one offending key |
| `ConfigValidation.EmptyValueKeysEmpty` | async_twitch.py:58-70 | phase 2 passes if and only if no value is falsy unless it is a bool |
| `ConfigValidation.WrongTypeKeysEmpty` | async_twitch.py:72-90 | phase 3 passes if and only if every value has exactly the type required for its key |
| `ConfigValidation.MissingKeysEmpty` | async_twitch.py:55-56 | phase 1 passes if and only if every required key is present |
| `ConfigValidation.ValidateAcceptsExactly` | async_twitch.py:34-93 | the configuration is accepted, and the result is true, if and only if all required keys are present, no value is falsy unless it is a bool, and every key's value has exactly its required type (so no other key may appear and a bool is not an int) |
| `ConfigValidation.ValidateReportsEveryOffender` | async_twitch.py:44-90 | a failure comes from the first failing phase; later phases run only when earlier ones found nothing; the failing phase lists every offending key and only those |
| `ConfigValidation.ValidatedEntry` | async_twitch.py:34-70 | every entry of an accepted configuration has a required key, a value of exactly that key's type, and a value that is truthy or a bool |
| `ConfigValidation.RequiredTypeOf` | async_twitch.py:34-42 | a key that maps to a type is required, and the type is the one listed for that key |
| `ConfigValidation.ValidatedValues` | async_twitch.py:34-70 | an accepted configuration has a non-empty channel list, a non-zero int wait time, a bool verbose flag, non-empty credential strings, and only required keys |
| `Startup.Get` | async_twitch.py:26 | `config.get(k)` finds a value if and only if the key is present |
| `Startup.GetOfDistinct` | async_twitch.py:26 | on a configuration without repeated keys, as every parsed JSON object is, `config.get(k)` is the value stored under k |
| `Startup.GetFindsEntry` | async_twitch.py:26 | the value `config.get(k)` returns is that of an entry with key k |
| `Startup.ChannelsOfValidConfig` | async_twitch.py:26 | in an accepted configuration `config.get("channels")` is a non-empty list |
| `Startup.StartupValidatedFirst` | async_twitch.py:26 | with validation run before the channel set is built, every rejected configuration is reported with the validator's own error, and the bot starts only on an accepted one |
| `Startup.StartupAsWritten` | async_twitch.py:26-96 | building the channel set before validating differs from validating first only by crashing, and only on a configuration the validator rejects |
| `Startup.AsWrittenCrashesWithoutChannels` | async_twitch.py:26 | as the module is written, any configuration without `channels` crashes at the set conversion, although validation would report the key as missing |
| `Startup.MissingChannelsExample` | async_twitch.py:96 | a concrete configuration lacking only `channels`: as written it crashes, while validating first reports exactly `["channels"]` |
| `Startup.OnlyChannelsMissing` | async_twitch.py:45 | the validator's missing-key list for that configuration is exactly `["channels"]` |
| `Python.Digits` | async_twitch.py:190 | `str(n)` of a non-negative int is a non-empty string of decimal digits |
| `Python.DigitsStartWithLeadingDigit` | async_twitch.py:190 | the first character of `str(n)` is the leading digit of n |
| `Python.IntToStrStartsWithDigit` | async_twitch.py:190-192 | `str(n)` starts with a digit d if and only if n is non-negative with leading digit d |
| `Helix.StatusStartsWithTwoIsTwoHundreds` | async_twitch.py:190-192 | for three-digit codes the test `str(status).startswith("2")` is exactly the 2xx range; in general it means a non-negative code with leading digit 2 |
| `Helix.InterpretToken` | async_twitch.py:182-206 | status 500 fails whatever the body; any other three-digit status outside 2xx only warns; the token is returned if and only if the status is not 500 and the body holds a non-null `access_token`, and it is that value |
| `Helix.OtherServerErrorsOnlyWarn` | async_twitch.py:182-197 | a 5xx status other than 500 with a token in the body warns and returns the token |
| `Helix.InterpretStatus` | async_twitch.py:233-243 | an answer whose `data` is not a list fails; otherwise the streamer is live if and only if `data` has exactly one entry |
| `Helix.LiveIffExactlyOneEntry` | async_twitch.py:243 | a data list of length 1 means live; length 0 and length 2 or more mean not live |
| `Helix.Gather` | async_twitch.py:272-282 | the gathered results succeed if and only if every streams answer is readable, and then hold, per request in order, the streamer and whether it is live |
| `Helix.LiveNames` | async_twitch.py:284-286 | a name is in the result if and only if its first result (the one `ChainMap` finds) says live |
| `Helix.AliveStreamers` | async_twitch.py:262-288 | a failed token request fails the poll with its error; a token that is not a string fails the first status request when there is one (`"Bearer " + access_token`, async_twitch.py:224); the poll succeeds if and only if the token is readable, is a string whenever a streamer is requested, and every streams answer is readable |
| `Helix.FirstStatusIsFirstRequest` | async_twitch.py:272-286 | the result `ChainMap` finds for a name is the answer to that name's first request |
| `Helix.AliveStreamersExactly` | async_twitch.py:284-288 | a successful poll returns exactly the requested names whose first answer says live; duplicate names collapse |
| `Helix.AliveStreamersRequested` | async_twitch.py:284-288 | only requested names are reported live |
| `Helix.AliveStreamersConsistent` | async_twitch.py:284-288 | when repeated requests for a name get the same answer, the result is the set of requested names whose answer says live |
| `Irc.Channel` | async_twitch.py:295 | the channel of a streamer is `#` followed by the name, and the name can be read back from it |
| `Irc.ChannelInjective` | async_twitch.py:295 | two streamers have the same channel if and only if they are the same streamer |
| `Irc.NormalizeToken` | async_twitch.py:105-108 | the password always starts with `oauth:`; a token that has the prefix is kept as is; otherwise the token follows the prefix |
| `Irc.NormalizeTokenIdempotent` | async_twitch.py:105-108 | normalising twice equals normalising once |
| `Irc.Handshake` | async_twitch.py:104-113 | login sends three commands: PASS with the normalised token (a token that already starts with `oauth:` unchanged, any other with the prefix put in front), then NICK with the bot name, then `CAP REQ :twitch.tv/membership` |
| `Irc.HandshakeIgnoresPrefix` | async_twitch.py:105-113 | a token configured with or without its prefix gives the same login |
| `Irc.Keepalive` | async_twitch.py:127-129 | a PING is answered with a PONG carrying the same payload |
| `Irc.JoinChannels` | async_twitch.py:291-298 | one JOIN to `#name` per listed name, in list order |
| `Irc.LeaveChannels` | async_twitch.py:301-308 | one PART to `#name` per listed name, in list order |
| `Reconcile.ComputeDiff` | async_twitch.py:372-383 | leaving the now-offline names and joining the new ones turns the joined set into the live set; both differences are empty if and only if nothing changed |
| `Reconcile.Next` | async_twitch.py:385-386 | after a cycle the joined and offline sets are disjoint and together hold every name that was joined before or is live now |
| `Reconcile.DiffPartitionsNames` | async_twitch.py:372-383 | the now-offline and to-join sets are disjoint, each lies on its own side, and together with the names that stay joined they make up every name in either set |
| `Reconcile.NextIsLive` | async_twitch.py:385-386 | after a cycle the joined set is the live set, the offline set is the previously joined minus live, and the two are disjoint |
| `Reconcile.SecondCycleChangesNothing` | async_twitch.py:372-386 | a second cycle with an unchanged live set has nothing to leave or join |
| `Reconcile.StillLiveIsNotRejoined` | async_twitch.py:372-386 | a streamer joined in one cycle and still live in the next is neither joined again nor left |
| `Reconcile.FirstStreamerGoesLive` | async_twitch.py:372-383 | joined `{}` and live `{alice}` give to-join `{alice}` and now-offline `{}` |
| `Reconcile.OneOfTwoGoesOffline` | async_twitch.py:372-383 | joined `{alice, bob}` and live `{bob}` give to-join `{}` and now-offline `{alice}` |
| `Reconcile.NeverLiveStreamerIsForgotten` | async_twitch.py:385-386 | a configured streamer who is never live leaves the offline set after the first cycle |
| `Reconcile.EnumerationLength` | async_twitch.py:388-389 | a list made of a set, each name once, is as long as the set |
| `Reconcile.ListOf` | async_twitch.py:388-389 | `list(s)` lists every name of the set exactly once, in some order |
| `Reconcile.CycleCommandsTargets` | async_twitch.py:388-389 | a cycle sends a PART to `#n` exactly for the names it leaves and a JOIN to `#n` exactly for the names it joins |
| `Reconcile.CycleCommandsDistinct` | async_twitch.py:388-389 | a cycle never sends the same command twice |
| `Reconcile.CycleOutputShape` | async_twitch.py:388-389 | what a cycle sends: one command per changed name, every PART before any JOIN, PARTs for exactly the now-offline names and JOINs for exactly the new ones |
| `Reconcile.QuietCycle` | async_twitch.py:388-389 | a cycle with nothing to leave or join sends nothing |
| `Reconcile.Fetch` | async_twitch.py:362-363 | a successful poll of the configured channels reports only configured channels as live |
| `Reconcile.Run` | async_twitch.py:357-389 | the loop consumes every poll without an error if and only if every poll succeeds, and then the joined set is the last poll's live set |
| `Reconcile.PollsAfterFailureIgnored` | async_twitch.py:357-364 | once a poll fails, the loop has ended: later polls change nothing and the run reports an error |
| `Reconcile.StreamerLists.constructor` | async_twitch.py:26 | the initial state: nobody joined, every configured channel offline |
| `Reconcile.StreamerLists.Step` | async_twitch.py:357-389 | a failed poll sends nothing and leaves both sets unchanged; a successful one makes the live set the joined set and the now-offline set the offline set, and sends that cycle's PARTs then JOINs; both sets stay disjoint and within the configured channels |
| `Reconcile.StreamerLists.RunCycles` | async_twitch.py:357-393 | runs cycles in order until the first failed poll, ending with the sets and the error that `Run` gives |
| `Reconcile.RepeatedPollIsQuiet` | async_twitch.py:357-389 | from the initial state a poll joins every live streamer and leaves nobody; the same poll again sends nothing |

## Left out

- HTTP requests and session handling (the POST and GET, `response.json()`, closing a session the function created itself at async_twitch.py:208-211) are I/O. Their results are inputs. A body that is not JSON, and the session left open when an exception is raised, are not modelled.
- The concurrency of `asyncio.gather` (async_twitch.py:272-282) is modelled as one request after another. When several requests fail, the model reports the first in request order, while the real failure is whichever raises first.
- The order of the list `get_alive_streamers` returns is not modelled. `main` turns it into a set at once (async_twitch.py:362).
- The `bottom` client's connection life cycle is library event plumbing and is left out: `bot.connect`, the reconnect after a two-second sleep (async_twitch.py:118-124), and the wait for the end of the MOTD (async_twitch.py:246-259). The timing of the PONG relative to other outbound traffic is also left out.
- SIGINT handling and shutdown with timeouts (async_twitch.py:132-160) are signal and event-loop concerns.
- Reading the configuration file, console logging, the verbose event handlers (async_twitch.py:310-343), the sleep between cycles (async_twitch.py:393) and storing the access token into the configuration (async_twitch.py:270) are I/O and have no behaviour to state. The token warning is kept as a flag.
- The raised configuration exception holds `KeyError`s in phase 1 and `TypeError`s in phases 2 and 3. `ConfigError` tags the phase instead, which is what the logged messages tell apart.
- A configuration is an ordered sequence of entries, which could repeat a key although no parsed JSON object does; `Startup.Get` returns the first such entry. The lemmas hold for any sequence, and `Startup.GetOfDistinct` states that without repeats `Get` is dict lookup.
- Streamer names are modelled as strings. The validator does not check the element types of the channel list, and a non-string element would be formatted into its channel with `str()`. `Startup.StartupValidatedFirst` therefore does not hand the channel set to `StreamerLists`.
- Python's `set(...)` failing on unhashable elements is modelled only for JSON lists and objects inside the channel list.
- Reconcile.StreamerLists.RunCycles: states the final sets and the stopping error, not the commands sent over several cycles. The commands of each cycle are stated by `Step`.

## Findings

| source | as written | input that shows it | evidently intended | confidence | as-written member | corrected member |
|---|---|---|---|---|---|---|
| async_twitch.py:26 | the initial sets are built with `set(config.get("channels"))` before `validate_config()` runs at line 96 | a configuration without a `channels` key (or with `"channels": null` or `0`) | the validator reports the missing or empty key, as it does for every other key | medium; not executed | `Startup.AsWrittenCrashesWithoutChannels` | `Startup.StartupValidatedFirst` |
