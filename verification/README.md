# Wrapster: a verified model

This project models the parts of the Nostroots repository on which access to the Trustroots gateway depends, and
proves what they promise. It has four parts.

**Keys** (`Bytes`, `Text`, `Regroup`, `Polymod`, `GF32`, `Bech32Vectors`, `Hex`, `NIP19`, `AdminKeys`). The iOS app writes and reads `nsec` and
`npub` texts; the gateway reads `npub` texts with a decoder of its own. Both use Bech32 (BIP-173) as NIP-19 does. The
bit-regrouping loop is proved against a plain bit-string specification, the checksum against polynomial division over
GF(32) with the standard's coefficients, and the two decoders against each other.

**The authenticated relay** (`Store`, `AuthEvent`, `Messages`, `Session`, `SessionInvariant`, `Runs`, `Wires`,
`Replies`, `RelayServer`). Each WebSocket connection is a state machine over client frames; any number of them interleave over one
cache of verifications that survives restarts. The lookups of an authentication may take time, during which other
connections go on. Signature checks, the username and NIP-05 lookups, dialing, clocks and write failures are inputs of
each step. `RelayServer` is the loop in imperative form, proved equal to the state machine.

**Configuration and access** (`Toml`, `TomlGrammar`, `ConfigFile`, `ConfigArrays`, `ConfigText`, `ConfigTables`,
`ConfigMeaning`, `ProxyGroups`, `GroupRules`, `GroupResults`, `LoadConfig`, `FileConfig`, `Access`, `Proxy`, `Gateway`,
`GuardedText`). The hand-written TOML subset, the assembly of access rules
from proxy groups, and the way from there to a forwarded request. `FileConfig` is the parser in imperative form: an
object filled line by line, whose groups are met in an arbitrary order. URL parsing and public-key normalization are
the functions of an environment.

**Order and inverse** (`Redirects`, `FollowList`, `Adverts`). Redirect rewriting against routing, the streaming choice
of a follow list, and the merge of service adverts.

Where code and documentation differ, the model follows the code:

- The repository's relay-auth requirements have every `EVENT` before
  authentication refused. The code sends a self-signed kind 0 event upstream over a connection of its own
  (wrapster/internal/relay/server.go:353-365).
- An AUTH array with fewer than two elements is not an error: the loop dials, answers OK and leaves the session
  unauthenticated (wrapster/internal/relay/server.go:424-425). The theorems speak of a nonempty pubkey.
- Swift's `UInt8(_, radix: 16)` accepts a sign, so a pair such as `+f` is a byte. The hex and key round trips therefore
  say exactly when the input itself comes back: when it is lower-case hex digits.
- The gateway cuts an `npub` payload longer than 32 bytes instead of refusing it, and refuses shorter ones;
  `AdminKeys.DecodersAgreeOnNpub` says that the two sides agree exactly on payloads of 32 bytes.
- The public-asset exception mentions HEAD, but HEAD is refused before it is reached; the exception is for GET only.
- The example configuration lists the aliases `wireguard_jellyfin` and `wireguard_plex` (conf.toml.example:42). The code
  knows `fips_jellyfin` and `fips_plex` only (wrapster/internal/config/targets.go:606-615), so it refuses that group;
  `GroupResults.GroupsAccepted` says exactly which groups it accepts.
- A list line is cut at a comma. Cutting inside a quoted string is another text and may be accepted or refused
  differently, so `ConfigArrays.SplittingKeepsMeaning` asks that every line but the last be a list of its own.

## Model

| member | source | states |
|---|---|---|
| Regrouping.ConvertBits | wrapster/internal/admin/auth.go:126-152 | the loop with the masked accumulator computes exactly the regrouping of the input read as one bit string, and fails exactly when a value does not fit its group or, without padding, the left-over bits are a whole group or not zero |
| Regrouping.StrictInvertsPadded | apps/ios/SharedCore/NIP19.swift:72-94 | for groups that do not grow, strict regrouping back accepts exactly the padded images and returns what they are images of |
| Polymod.ComputePolymod | apps/ios/SharedCore/NIP19.swift:100-110 | the register updated symbol by symbol and tap by tap ends as the run of `Step`, which `GF32.StepDivides` ties to BIP-173 |
| GF32.StepDivides | apps/ios/SharedCore/NIP19.swift:100-110 | one step of the register is one step of dividing by the generator polynomial over GF(32): each digit is the one after it, or the symbol read, plus the product of the leading digit with the coefficient of BIP-173 at that place (29, 22, 20, 21, 29, 18) |
| Bech32Vectors.ShortTextDecodes | apps/ios/SharedCore/NIP19.swift:44-64 | the BIP-173 text `a12uel5l` decodes to the prefix `a` and no bytes, so the start value, the final one and the expansion of the prefix are those of the standard |
| Bech32Vectors.LongTextIsChecked | apps/ios/SharedCore/NIP19.swift:44-59 | the BIP-173 text with all 32 characters of the charset is accepted with the symbols 0 to 31 in order, which fixes every character and every tap |
| Bech32Vectors.HighBitsFirst | apps/ios/SharedCore/NIP19.swift:72-94 | bytes are cut into symbols highest bits first, and padded with zeros at the low end |
| Polymod.RunBound | apps/ios/SharedCore/NIP19.swift:100-110 | the register never exceeds 30 bits, whatever bytes it reads |
| Polymod.AdvanceLinear | wrapster/internal/admin/auth.go:111-124 | one step of the register without its input is linear over GF(2) |
| Polymod.AdvanceInjective | wrapster/internal/admin/auth.go:111-124 | that step is injective on 30-bit registers |
| Polymod.RunInjective | apps/ios/SharedCore/NIP19.swift:100-110 | reading the same symbols never brings two different registers together |
| Polymod.RunReadsJoin | apps/ios/SharedCore/NIP19.swift:100-110 | six or fewer symbols enter the register unmixed |
| Polymod.BurstDetection | apps/ios/SharedCore/NIP19.swift:100-114 | at every length, changing symbols inside a window of at most six consecutive ones always changes the checksum |
| Polymod.ChecksumUnique | apps/ios/SharedCore/NIP19.swift:112-120 | exactly one block of six symbols completes a sequence to checksum one: the one that is created |
| NIP19.ChecksumAccepted | apps/ios/SharedCore/NIP19.swift:96-120 | for every prefix and data the created checksum is accepted and no other six symbols are |
| NIP19.CheckedIffAssembled | apps/ios/SharedCore/NIP19.swift:47-59 | the part of decoding before regrouping accepts exactly the texts assembled from a non-empty lower-case prefix, the separator, symbols and their own checksum |
| NIP19.EncodeSucceeds | apps/ios/SharedCore/NIP19.swift:66-70 | encoding never fails |
| NIP19.DecodeInvertsEncode | apps/ios/SharedCore/NIP19.swift:47-70 | a text decodes to a prefix and bytes if and only if it is their encoding and the prefix is non-empty and lower case |
| NIP19.ImportInvertsExport | apps/ios/SharedCore/NIP19.swift:22-32 | importing an exported secret gives its canonical hex, which is the input exactly when the input is 64 lower-case hex digits |
| NIP19.ImportMeans | apps/ios/SharedCore/NIP19.swift:22-27 | a secret is imported exactly if the text decodes under `nsec` to 32 bytes, and as their hex |
| NIP19.ExportMeans | apps/ios/SharedCore/NIP19.swift:29-37 | a secret is exported under `nsec` and a public key under `npub`, exactly if the hex reads as 32 bytes |
| NIP19.ExportSucceeds | apps/ios/SharedCore/NIP19.swift:29-37 | every key of 64 lower-case hex digits can be exported |
| NIP19.DecodeDetectsBursts | apps/ios/SharedCore/NIP19.swift:47-64 | replacing charset characters of a decodable text inside a window of six makes decoding fail with the checksum error |
| Hex.DecodeLoop | apps/ios/SharedCore/Hex.swift:8-15 | the pair-by-pair loop appends the value of every pair or fails at the first that has none |
| Hex.DigitsMean | apps/ios/SharedCore/Hex.swift:5-17 | a character is a digit exactly if it is one of 0123456789abcdef, and its value is its place there |
| Hex.EncodeMeans | apps/ios/SharedCore/Hex.swift:19-22 | byte k becomes the digits of its high and of its low half, in this order, at places 2k and 2k+1 |
| Hex.DecodeOfEncode | apps/ios/SharedCore/Hex.swift:5-22 | decoding the hex of any bytes gives the bytes |
| Hex.EncodeOfDecode | apps/ios/SharedCore/Hex.swift:5-22 | every even-length string of lower-case hex digits decodes, to half as many bytes, and encodes back to itself |
| Hex.EncodeShape | apps/ios/SharedCore/Hex.swift:19-22 | the hex of n bytes is 2n lower-case hex digits |
| Hex.SignIsAccepted | apps/ios/SharedCore/Hex.swift:5-17 | texts with a sign are read too, the sign as a zero, so the codec is a bijection only on hex digits |
| AdminKeys.Bech32ChecksumOK | wrapster/internal/admin/auth.go:95-109 | the Go check accepts exactly what the Swift check accepts among prefixes in 33..126 |
| AdminKeys.SymbolsLoop | wrapster/internal/admin/auth.go:79-86 | the loop looks every character up in the charset, or fails |
| AdminKeys.DecodeBech32 | wrapster/internal/admin/auth.go:69-91 | the Go decoder accepts exactly the texts the Swift decoder accepts before regrouping, among those prefixes, with the same prefix and symbols |
| AdminKeys.DecodeStrict | wrapster/internal/admin/auth.go:57-91 | followed by strict regrouping it accepts exactly what the Swift decoder accepts, with the same prefix and bytes |
| AdminKeys.DecodeNpub | wrapster/internal/admin/auth.go:57-67 | the loop-based decoder computes the value the lemmas about npub keys speak of |
| AdminKeys.NpubRoundTrip | wrapster/internal/admin/auth.go:57-91 | the Go decoder inverts the Swift encoder: it returns the canonical hex of every exported public key |
| AdminKeys.DecodersAgreeOnNpub | wrapster/internal/admin/auth.go:57-67 | on a valid npub the two sides agree exactly when the payload has 32 bytes; the Go side cuts longer ones and refuses shorter ones |
| AdminKeys.NormalizeIdempotent | wrapster/internal/admin/auth.go:47-55 | normalizing a public key twice is normalizing it once |
| AdminKeys.NormalizeMeans | wrapster/internal/admin/auth.go:47-67 | a text that decodes as an npub of at least 32 bytes becomes the hex of the first 32, any other becomes itself, trimmed and in lower case |
| Store.TruncatedExpiry | wrapster/internal/store/store.go:64-92 | comparing whole seconds never prolongs a row, and shortens it by less than one second |
| Store.StoredLookup | wrapster/internal/store/store.go:64-92 | a stored row answers its own pubkey until the last second of its lifetime, never afterwards, and changes no other pubkey |
| Store.Cache.GetValid | wrapster/internal/store/store.go:64-80 | finds the row of a pubkey that has not expired, without changing the table |
| Store.Cache.Put | wrapster/internal/store/store.go:82-92 | inserts or replaces the row of one pubkey, both times truncated to seconds |
| Store.Cache.Summary | wrapster/internal/store/store.go:94-122 | counts every pubkey once, as valid exactly when a lookup would find it; the oldest and newest verification times are attained bounds, or zero |
| SessionInvariant.HitIsVerified | wrapster/internal/relay/server.go:436-442 | in a cache backed by completed verifications, a hit implies one that has not expired |
| SessionInvariant.ReceiveKeeps | wrapster/internal/relay/server.go:231-289 | one frame keeps the whole invariant of a connection and takes nothing back |
| SessionInvariant.ResumeKeeps | wrapster/internal/relay/server.go:445-457 | so does the end of the lookups, which adds exactly one completed verification when both succeed |
| AuthEvent.VerifyMeans | wrapster/internal/auth/auth.go:32-69 | the check gives a pubkey if and only if it is the event's, the kind is 22242, the signature is good, the first challenge tag carries the challenge, the first relay tag is the relay URL up to trailing slashes, and the time is within the allowed age on both sides |
| AuthEvent.VerifyRefused | wrapster/internal/auth/auth.go:32-56 | an error is given if and only if it names the first of these conditions that fails |
| Runs.ReachableIsSafe | wrapster/internal/relay/server.go:194-290 | every connection of every reachable server satisfies the invariant, over all interleavings, restarts and configuration changes |
| Runs.PubkeyIsProven | wrapster/internal/relay/server.go:244-266 | a nonempty pubkey has an upstream and came from an event in an AUTH frame of this very session, with good signature, kind, challenge, relay and age, spelled out as in `AuthEvent.VerifyMeans`, then from a valid cache row or a fresh verification |
| Runs.PubkeyIsForGood | wrapster/internal/relay/server.go:231-289 | a nonempty pubkey, its upstream and its proof never change again, whatever follows |
| Runs.VerifiedWasCompleted | wrapster/internal/relay/server.go:445-457 | every verification on record was completed by a definite earlier step |
| Runs.HitWasVerified | wrapster/internal/relay/server.go:436-457 | a cache hit for a pubkey at a time implies an earlier step that completed a verification of that pubkey whose start plus lifetime is still in the future |
| Wires.FrameHasOneOutcome | wrapster/internal/relay/server.go:231-289 | every frame has exactly one outcome, and which one is decided: a frame goes upstream exactly if the session is authenticated and the frame passes, over a connection of its own exactly if it is a validated self-signed kind 0 event before authentication |
| Wires.LookupHasOneOutcome | wrapster/internal/relay/server.go:422-457 | a pending authentication ends in exactly one reply, and admits the session only if both lookups succeeded |
| Replies.WaitOKMeans | wrapster/internal/relay/server.go:390-419 | the upstream's answer is that of the first OK message for the event among those read, and nothing if that one is malformed or there is none |
| Replies.MalformedDraws | wrapster/internal/relay/server.go:231-243 | a frame that is no array or starts with no text draws the malformed-message notice and changes nothing else, authenticated or not |
| Replies.UnauthenticatedDraws | wrapster/internal/relay/server.go:338-369 | before authentication a REQ draws CLOSED for its subscription, an EVENT a negative OK for its id, anything else a notice, each with its reason and nothing sent upstream |
| Replies.ProfileDraws | wrapster/internal/relay/server.go:353-388 | a self-signed profile draws the upstream's own verdict for its id, or the unavailable error if it cannot be dialed, written to or does not answer |
| Replies.AuthDraws | wrapster/internal/relay/server.go:245-267 | an AUTH frame: refused with the flaw of an event that proves nothing or the error of a cache that fails, admitted at once on a cached row, left pending otherwise |
| Replies.LookupDraws | wrapster/internal/relay/server.go:445-457 | the lookups: each failure is a refusal with its reason and writes no row; success admits and writes the one row of the key, from the start of the authentication for the configured time in whole seconds |
| Replies.AuthenticatedDraws | wrapster/internal/relay/server.go:274-288 | after authentication an EVENT without the session's pubkey draws a negative OK for its id; every other frame draws nothing and goes upstream as it is |
| Replies.QueriesAreRecorded | wrapster/internal/relay/server.go:311-328 | exactly a REQ with a subscription and at least one filter is recorded, with time, pubkey, subscription and filters, first in the recent list |
| Wires.UpstreamSeesTheFilter | wrapster/internal/relay/server.go:274-288 | what is written to a session's upstream is, in order and unchanged, the filter of the frames received after authentication, up to the first failed write; no other session writes there |
| Wires.EveryFrameIsAccountedFor | wrapster/internal/relay/server.go:231-289 | over a whole run replies and forwards together are as many as the frames read, but for one that waits for its lookups; only bootstrap events go out before authentication |
| Wires.ReachableSeparates | wrapster/internal/relay/server.go:371-388 | bootstrap connections are used once each, and no two sessions share an upstream |
| Wires.AuthEventIsForOneChallenge | wrapster/internal/auth/auth.go:32-56 | two sessions admitted by the same auth event were sent the same challenge |
| Wires.RecentAreNewest | wrapster/internal/relay/server.go:311-328 | the list of recent queries is always the newest 25 of all recorded ones, newest first |
| RelayServer.Connection.WriteClient | wrapster/internal/relay/server.go:225-229 | one reply is recorded and the connection stays open exactly if the write succeeds |
| RelayServer.Server.Authenticated | wrapster/internal/relay/server.go:422-458 | the imperative form equals the state machine: same result, same cache, same record of verifications |
| RelayServer.Server.RecordRelayQuery | wrapster/internal/relay/server.go:311-328 | prepends the query of a well-formed REQ and keeps the newest 25 |
| RelayServer.Server.ReadOK | wrapster/internal/relay/server.go:390-419 | the loop returns the first matching OK, or nothing if it is malformed or reading fails first |
| RelayServer.Server.ForwardToUpstreamAndWaitOK | wrapster/internal/relay/server.go:371-420 | the event travels over a connection of its own, if one can be dialed |
| RelayServer.Server.RelayBootstrap | wrapster/internal/relay/server.go:361-365 | a validated bootstrap event draws the upstream's OK, or the error when there is none |
| RelayServer.Server.HandleUnauthenticated | wrapster/internal/relay/server.go:338-369 | equals the state machine's turn for an unauthenticated frame that is not AUTH |
| RelayServer.Server.HandleAuth | wrapster/internal/relay/server.go:245-267 | equals the turn for an AUTH frame |
| RelayServer.Server.HandleAuthenticated | wrapster/internal/relay/server.go:274-288 | equals the turn for a frame of an authenticated session |
| RelayServer.Server.HandleMessage | wrapster/internal/relay/server.go:231-289 | the loop body equals one whole turn |
| RelayServer.Server.Websocket | wrapster/internal/relay/server.go:194-290 | the loop equals the fold of turns over the client's frames |
| RelayServer.TurnIsTwoSteps | wrapster/internal/relay/server.go:231-289 | a turn is one of the interleavings, so everything proved of runs holds of the loop |
| RelayServer.ConversationKeeps | wrapster/internal/relay/server.go:231-289 | a whole conversation keeps the invariant of connection and cache |
| Toml.StripCommentLoop | wrapster/internal/config/targets.go:697-718 | the scan cuts the line at the first hash outside a string |
| Toml.FindQuoteEnd | wrapster/internal/config/targets.go:649-667 | the scan finds the first unescaped quote after the opening one |
| Toml.ParseListItems | wrapster/internal/config/targets.go:639-682 | the loop computes the list of strings, trailing comma allowed, or fails |
| Toml.UnescapeEscape | wrapster/internal/config/targets.go:734-741 | unescaping undoes escaping |
| Toml.ItemsConcat | wrapster/internal/config/targets.go:639-682 | a list cut after a comma reads as its two parts, one after the other |
| Toml.KeptItems | wrapster/internal/config/targets.go:697-718 | comment stripping passes over every well-formed list |
| Toml.PrintedArrayReadsBack | wrapster/internal/config/targets.go:229-245 | the printed array of any strings, followed by any comment, reads back as exactly those strings |
| TomlGrammar.ItemsMean | wrapster/internal/config/targets.go:639-682 | the exact grammar of lists: a text reads as given strings if and only if it is a layout of quoted pieces that hold them, with commas between, white space around and perhaps a comma at the end |
| TomlGrammar.UnescapeKeeps | wrapster/internal/config/targets.go:734-741 | a backslash before any other character stays, so only escaped quotation marks and backslashes are rewritten |
| ConfigText.PrintedArrayParses | wrapster/internal/config/targets.go:120-179 | the same through lines and key: a text line that assigns printed newline-free strings applies exactly those strings and nothing else |
| ConfigTables.PrintedTableReadsBack | wrapster/internal/config/targets.go:247-301 | the printed inline table of any entries, with colons or equals signs, reads back as exactly that table |
| ConfigTables.PrintedTableParses | wrapster/internal/config/targets.go:120-189 | through lines, key and comment: a text line that assigns a printed table to `access_rule` outside every section goes on with the global rule equal to exactly that table and every other field unchanged; under any other key or section it is refused |
| ConfigTables.PrintedStringParses | wrapster/internal/config/targets.go:150-196 | a text line that assigns a printed string applies exactly that string |
| ConfigTables.PrintedSectionParses | wrapster/internal/config/targets.go:143-149 | a header line opens its section and changes nothing else |
| ConfigTables.LineRefused | wrapster/internal/config/targets.go:143-162 | refused lines: a header of an array of tables, an unclosed header, no equals sign, nothing on one side of the first one |
| ConfigTables.BlankLineIgnored | wrapster/internal/config/targets.go:124-129 | a line that is blank but for a comment changes nothing, inside an array or not |
| GuardedText.RuledTextLoads | wrapster/internal/config/targets.go:476-510 | the text of a file with targets, relays and one global rule loads with exactly those targets and one rule, whose kind, relays and NIP-05 address are stated from the domain and the relays of the text |
| GuardedText.RuledTextGuards | wrapster/internal/proxy/proxy.go:147-188 | with such a text a request is forwarded if and only if it passes the gates before routing, has a route, and is a GET for a public asset or carries a signed event whose key the NIP-05 verifier accepts for that rule |
| ConfigMeaning.ArrayMeans | wrapster/internal/config/targets.go:342-362 | where an array goes: targets, relays or administrators, and which keys are refused |
| ConfigMeaning.GroupArrayMeans | wrapster/internal/config/targets.go:363-374 | an array of a proxy group lengthens its URLs or its additional rules and leaves the other alone; other keys are refused |
| ConfigMeaning.ValueMeans | wrapster/internal/config/targets.go:380-392 | where a single string goes: the owner, one target, or a target under a key of its own |
| ConfigMeaning.WikiValueMeans | wrapster/internal/config/targets.go:393-424 | each key of a wiki sets its own field, normalized where it is a path, and no other; exactly the known keys are accepted |
| ConfigMeaning.TokensMean | wrapster/internal/config/targets.go:567-577 | a token list is cut at commas, spaces, tabs and newlines into its trimmed non-blank parts |
| ConfigMeaning.NormalizePathMeans | wrapster/internal/config/targets.go:553-565 | a path is empty, the root, or starts with a slash, added or given, and has lost all slashes at its end |
| ConfigMeaning.RouteKeyMeans | wrapster/internal/config/targets.go:684-695 | the key of a target is its host in lower case without one leading `www.`; that of trustroots.org, with or without it, is `trustroots`; a URL without host has none |
| ConfigMeaning.AddTargetsMeans | wrapster/internal/config/targets.go:617-637 | targets can be listed if and only if every one has a key, no two the same and none taken; then each is under its key and nothing else changed |
| ConfigMeaning.GlobalRuleMeans | wrapster/internal/config/targets.go:476-510 | a table with only a domain makes one rule and changes nothing else, unless the domain is blank; its name, kind, relays and NIP-05 address are stated from domain and relays |
| ConfigMeaning.GlobalRuleRefused | wrapster/internal/config/targets.go:476-489 | a table with another criterion, or without the domain, is refused; no table makes no rule |
| ConfigMeaning.FollowRuleMeans | wrapster/internal/config/targets.go:512-534 | the rule of groups with additional rules asks the owner's follow list of the configured relays |
| ConfigMeaning.MediaServiceMeans | wrapster/internal/config/targets.go:606-615 | exactly two aliases name media services |
| ConfigText.BareKeyReads | wrapster/internal/config/targets.go:150-162 | every bare key is read as itself, so the theorems about keys speak of all of them |
| ConfigFile.ApplyConcat | wrapster/internal/config/targets.go:342-378 | applying two parts of an array one after the other is applying the whole, failures included |
| ConfigArrays.AssignmentStep | wrapster/internal/config/targets.go:150-196 | white space and comments around an assignment do not reach its value |
| ConfigArrays.BodyActsJoined | wrapster/internal/config/targets.go:130-142 | inside an array, the lines up to the closing one act as their joined list |
| ConfigArrays.EmptyKeyFails | wrapster/internal/config/targets.go:130-196 | an array with the empty key fails wherever its lines are cut |
| ConfigArrays.SplittingKeepsMeaning | wrapster/internal/config/targets.go:124-179 | an array spread over comma-ended lines, with blank and comment lines, gives the same configuration and the same success as on one line |
| ConfigText.SplitTextKeepsMeaning | wrapster/internal/config/targets.go:124-179 | the same for texts with any comment after any line |
| FileConfig.ParseArrayLine | wrapster/internal/config/targets.go:229-245 | computes the strings of one array line and whether it closes the array |
| FileConfig.ParseInlineKey | wrapster/internal/config/targets.go:303-340 | computes the key of an inline table entry and what follows it |
| FileConfig.ParseInlineTable | wrapster/internal/config/targets.go:247-301 | the loop computes the inline table |
| FileConfig.FileConfig.ApplyStringArray | wrapster/internal/config/targets.go:342-378 | the new configuration, or failure, is that of the specification |
| FileConfig.FileConfig.ApplyStringValue | wrapster/internal/config/targets.go:380-428 | likewise for a single string |
| FileConfig.FileConfig.ApplyStringTable | wrapster/internal/config/targets.go:430-441 | likewise for an inline table |
| FileConfig.FileConfig.ApplyGlobalAccessRule | wrapster/internal/config/targets.go:476-500 | likewise for the global access rule |
| FileConfig.FileConfig.AdditionalProxyGroupAccessRules | wrapster/internal/config/targets.go:512-534 | likewise for the rules a group adds, with the names it returns |
| FileConfig.FileConfig.AddTargetKey | wrapster/internal/config/targets.go:627-637 | adds a target under its derived key, or fails and changes nothing when there is no key or it is taken |
| FileConfig.FileConfig.AddAll | wrapster/internal/config/targets.go:345-350 | adds the targets one by one, failing at the first that cannot be added |
| FileConfig.FileConfig.ApplyOneURL | wrapster/internal/config/targets.go:451-471 | one URL of a group becomes a target with the group's rules, or rules of a media service, or a failure |
| FileConfig.FileConfig.ApplyProxyGroup | wrapster/internal/config/targets.go:444-472 | the new configuration of one group, or failure, is that of the specification |
| FileConfig.FileConfig.ApplyProxyGroups | wrapster/internal/config/targets.go:443-474 | meeting the groups in any order whatsoever gives the one result |
| FileConfig.ParseLine | wrapster/internal/config/targets.go:124-197 | one line updates section, open array and configuration as specified |
| FileConfig.ParseKeyValue | wrapster/internal/config/targets.go:163-196 | likewise for what stands after the equals sign |
| FileConfig.ParseConfigTOML | wrapster/internal/config/targets.go:111-214 | the line loop and what follows it compute the specified configuration, or fail with it |
| ProxyGroups.AppendUniqueRules | wrapster/internal/config/targets.go:536-551 | the loop with its set of seen names computes the specified list |
| ProxyGroups.AppendUniqueMeans | wrapster/internal/config/targets.go:536-551 | that list holds exactly the trimmed non-blank names of both lists, each once |
| ProxyGroups.AppendChain | wrapster/internal/config/targets.go:466-470 | adding a list and a list that starts with it, in either order, is adding the longer one, order of names included |
| ProxyGroups.Commute | wrapster/internal/config/targets.go:443-474 | any two entries of proxy groups can be applied in either order, with the same result or failure |
| ProxyGroups.OrderDoesNotMatter | wrapster/internal/config/targets.go:443-474 | two orders of the same groups give the same configuration, or both fail |
| LoadConfig.AnyGroupOrder | wrapster/internal/config/targets.go:201-213 | so the end of parsing does not depend on the order of the map |
| GroupRules.GroupsMark | wrapster/internal/config/targets.go:443-474 | a target exists exactly if it was configured before or a group lists it, keeps its earlier URL, and carries the additional rule exactly if a group with additional rules lists it |
| GroupRules.GroupsNeat | wrapster/internal/config/targets.go:443-534 | after the groups every rule name in use is defined |
| GroupResults.GroupsAccepted | wrapster/internal/config/targets.go:443-534 | groups are accepted if and only if they ask for no rule but the owner's follow list, and that only with an owner, every entry is a URL or a known alias, and all their URLs together can be listed as targets; the targets are those of that list |
| GroupResults.GroupsServe | wrapster/internal/config/targets.go:461-470 | a media service carries exactly the rules of the groups that name it: the global ones, and the additional one if such a group has additional rules |
| GroupResults.GroupsDefineFollow | wrapster/internal/config/targets.go:512-534 | the follow rule is made, from owner and relays, if a group asks for it; otherwise no rule changes, and no other rule ever does |
| LoadConfig.EveryRuleIsDefined | wrapster/internal/config/targets.go:111-214 | in every configuration that parses, every rule name of the proxy, of a target or of a media service is defined, and the proxy has exactly the global rules |
| LoadConfig.GroupTargets | wrapster/internal/config/targets.go:443-534 | in every configuration that parses, a target carries additional rules exactly if a group with additional rules lists it |
| LoadConfig.LoadMeans | wrapster/internal/config/config.go:79-190 | a file that parses loads if and only if it has targets, all of them routable, and its rules are complete; what is loaded is stated field by field |
| LoadConfig.DefaultsMean | wrapster/internal/config/config.go:229-284 | the defaults of a rule are filled in field by field, and it is accepted afterwards if and only if it was complete but for them |
| LoadConfig.OpenArrayRefused | wrapster/internal/config/targets.go:201-203 | a text that ends inside an array is refused |
| LoadConfig.ListedTargetsLoad | wrapster/internal/config/config.go:79-190 | a file that lists its targets loads whenever their keys differ and every target is acceptable, with exactly those targets and no rules |
| Access.CompactRuleNames | wrapster/internal/access/access.go:143-151 | the loop computes the trimmed names that are not blank |
| Access.VerifyAllRequest | wrapster/internal/access/access.go:126-141 | the loop with early return computes the specified verdict |
| Access.VerifyAllMeans | wrapster/internal/access/access.go:126-178 | a request passes exactly if its event verifies, some name is not blank, and its key meets every rule named |
| Access.CheckAllMeans | wrapster/internal/access/access.go:135-140 | a refusal is that of the first rule that is not met |
| Access.CheckRuleMeans | wrapster/internal/access/access.go:153-178 | a key meets a rule if and only if the rule is defined, the key in lower case is not denied, and either the kind is trustroots_nip05 and the NIP-05 verifier accepts, or it is nostr_follow for the relationship it knows and the follow verifier accepts; each error is characterised likewise |
| Access.VerifyAllRefused | wrapster/internal/access/access.go:126-141 | blank names alone and an unverified event each give their own error; otherwise the error is that of the first rule not met |
| Proxy.ServeHTTP | wrapster/internal/proxy/proxy.go:147-188 | the gates in order give the specified response |
| Proxy.ResponseMeans | wrapster/internal/proxy/proxy.go:147-188 | every response but forwarding is characterised by the gates, each in an equivalence |
| Proxy.PublicAssetMeans | wrapster/internal/proxy/proxy.go:190-212 | a GET is for a public asset exactly if its path in lower case starts with one of seven picture directories, whatever its query |
| Proxy.RouteRules | wrapster/internal/proxy/proxy.go:228-275 | a route carries the rules of its own target and leads to that target's upstream |
| Proxy.FallbackRoutes | wrapster/internal/proxy/proxy.go:228-271 | a path whose first segment is no target goes unchanged to the default target exactly if the segment is empty or one of the site's own directories, and has no route otherwise |
| Proxy.OutsideHasNoRoute | wrapster/internal/proxy/proxy.go:277-288 | a path outside the prefix has no route |
| Proxy.RootRoutes | wrapster/internal/proxy/proxy.go:228-236 | the empty path and the bare prefix are the root |
| Proxy.CleanPrefixMeans | wrapster/internal/proxy/proxy.go:108-117 | a configured prefix becomes empty, or starts with a slash and ends without one |
| Proxy.ForwardedExactly | wrapster/internal/proxy/proxy.go:147-212 | a request is forwarded if and only if it is not the health check, has a forwarded method, an allowed origin and a route, and is a GET for a public asset or meets every rule of its target |
| Gateway.LoadedIsAccepted | wrapster/internal/config/config.go:79-190 | every loaded configuration has valid target keys, defined rule names, the global rules on the proxy, and additional rules exactly on the targets that groups restrict |
| Gateway.RulesOfTarget | wrapster/internal/proxy/proxy.go:273-275 | for every accepted configuration the rules of a target are the global ones and, exactly if a group with additional rules lists it, the additional one; the fallback has the global ones only; all are defined |
| Gateway.Upstreams | wrapster/internal/proxy/proxy.go:228-271 | a routed request goes to the configured URL of its target, a fallback request to that of trustroots |
| Gateway.ForwardedIsGuarded | wrapster/internal/proxy/proxy.go:176-187 | from configuration text to request: whatever is forwarded is a public asset or has met the global rule and, where a group demands it, the additional rule |
| Redirects.RoutesUnderBase | wrapster/internal/proxy/proxy.go:228-259 | a path under a target's public base goes to that target with the rest of the path |
| Redirects.RoutedFrom | wrapster/internal/proxy/proxy.go:228-308 | the public base of a route is the prefix and the segment it was found under |
| Redirects.RewritingInvertsRouting | wrapster/internal/proxy/proxy.go:512-536 | following a rewritten path-absolute Location reaches the same upstream, and exactly the original Location there if and only if it has no comma, no fragment, no trailing white space and no empty query |
| Redirects.AbsoluteComesBack | wrapster/internal/proxy/proxy.go:518-536 | an absolute Location, whatever its host, comes back as its own path and query |
| Redirects.RelativeComesBack | wrapster/internal/proxy/proxy.go:518-529 | a Location that is neither absolute nor starts with a slash comes back under one, at the same upstream |
| Redirects.FallbackKeepsLocation | wrapster/internal/proxy/proxy.go:512-517 | without target and prefix a Location stays, but for what follows a comma and white space around it |
| FollowList.HasPubkeyTags | wrapster/internal/access/access.go:345-352 | finds whether some tag names a contact |
| FollowList.ContactsMean | wrapster/internal/access/access.go:345-352 | an event has contacts exactly if some tag `p` carries a value that is not blank |
| FollowList.FindFollowListOnRelay | wrapster/internal/access/access.go:313-343 | the streaming loop computes the specified choice |
| FollowList.FoundMeans | wrapster/internal/access/access.go:292-343 | at the end of the stored events the result is the newest acceptable event with contacts, else the newest acceptable one, the earliest among equals; a closed subscription or failed read is an error |
| FollowList.UnrelatedIgnored | wrapster/internal/access/access.go:373-407 | a message that offers no acceptable event can be dropped anywhere |
| FollowList.ArrivalOrderDoesNotMatter | wrapster/internal/access/access.go:318-342 | with distinct timestamps neither the order nor the repetition of arrivals matters |
| Adverts.Board.Upsert | examples/service-directory.html:893-912 | the board after an arrival is the specified merge of the board before it |
| Adverts.ReplacesMeans | examples/service-directory.html:902-908 | an event replaces another exactly if it is newer, or as new with an id that precedes the other at their first difference |
| Adverts.LessMeans | examples/service-directory.html:902-908 | the order of ids is that of the first differing character, a proper beginning first |
| Adverts.Meet | examples/service-directory.html:900-911 | of two entries at one address one takes over what both have seen |
| Adverts.Collect | examples/service-directory.html:874-891 | a run of arrivals fills the board with their merge |
| Adverts.MergeSummarizes | examples/service-directory.html:893-912 | per address no arrival is newer than the entry, none as new has an id that precedes its id, its relays are the union and it is marked incoming if any arrival was |
| Adverts.OrderAndRepetitionDoNotMatter | docs/nostr-service-advert.md:169-179 | merging does not depend on the order or the repetition of arrivals |
| Adverts.RelayIsTheFirst | examples/service-directory.html:893-912 | the one field that does depend on order: the delivering relay is that of the first delivery |

## Left out

- Signatures, SHA-256, key generation, JSON decoding, base64 and `url.Parse`: library code, represented by the checks an event carries, by decoded frames and by the functions of an environment.
- Sockets, deadlines, HTTP forwarding, SQLite: dialing, lookups, reads and writes are inputs of each step; the cache table is a map from pubkey to row, and a read deadline is a failed read.
- The text of error messages and line numbers: failures are `None`, or an error code where callers distinguish them.
- Non-ASCII case mapping and Unicode normalization: case is ASCII case in `Text`, and the key codec is on ASCII strings.
- The 64 KiB line limit of the scanner that reads the configuration.
- Aliasing of Go slices: `append` makes a new sequence in the model, as it does in effect in the modelled code.
- Pipes from the upstream to the client, the NIP-11 document, the origin check of WebSocket upgrades and the admin pages.
- Environment settings, origin and wiki checks of configuration loading: they only refuse more configurations.
- LoadConfig.ListedTargetsLoad: supposes that the environment settings, which are not modelled, are in order.
- LoadConfig.AnyGroupOrder: error texts may name a different group in a different order; only success and the result are the same.
- Redirects.RewritingInvertsRouting: a path is taken as sent, so re-escaping of unusual characters by the HTTP library is not modelled.
- FollowList.FindFollowListOnRelay: dialing and the REQ sent first are not modelled, and several relays are asked in turn by a loop that is left out.
- Adverts.OrderAndRepetitionDoNotMatter: the delivering relay is excluded, and an id is taken to name one event.
- Adverts.Board.Upsert: relay sets are values of their entry; the replaced entry, which nothing refers to any more, does not share its set.
- Media gateway, connector and setup handlers, the FIPS package, the web and iOS user interfaces and the other advert clients: short branches or user interface.
- RelayServer.Server.Websocket: one connection at a time in imperative form; interleavings are those of `Runs`.
