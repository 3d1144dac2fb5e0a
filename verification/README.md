# Verification of the camera bridge and the Wyze client

This project models the parts of the repository that hold state or invert each other, and proves properties of
them in Dafny 4.11. `dafny verify dfyconfig.toml` checks all of it.

**Codecs.** `JsText`, `Utf8`, `Base64`, `PercentCoding` and `JsonText` model JavaScript strings (sequences of UTF-16
units) and the platform functions the code composes: UTF-8, `btoa`/`atob`, Node's lenient base64 decoder,
`encodeURIComponent`/`unescape`/`escape`/`decodeURIComponent`, `JSON.stringify`/`JSON.parse`. On them stand
`SignalEnvelope` (the WebRTC signalling envelope, written once for Node and once for the browser), `BulbCipher` (the
LAN bulb cipher, over an arbitrary keyed block permutation), `BulbCommand` (the JSON body with its hand-made
backslash rewrite) and `CanonicalStrings` (the strings that are signed).

**State machines.** Each has a `State`, an `Event` for every piece of code that runs between two awaits (and for
every timer, message and outside answer), a `Step`, and a `Run` over any sequence of events that can happen; the
theorems are about all runs. Beside each stands a class with the source's own fields. Its `Valid()` is the machine's
invariant, which the constructor establishes and every handler keeps while it takes the machine's step; the table
lists the handlers whose contract says more than that. What a machine holds is also derived from the run alone, with
`History` saying what a run has switched on and not off again. The machines are `Snapshots`/`SnapshotServer` (on-demand
snapshots and livestream dispatch), `AutoSnap` (the snapshot schedule), `EufyLogin` (captcha and 2FA),
`LoginDebounce`, `StreamCache`, `IceSignalling` and `StreamSession` (the browser's signalling session), `EventPoller`
(browser alerts) and `ProxyQueue` (the WebSocket proxy).

**Calls.** `WyzeRequest` follows one request through login, rate limit, refresh and retry, with arbitrary
interference at every await, and bounds what it sends; `WyzeAnswers` says what each answer leads to and when the retry
is sent, `WyzeTokens` when a post carries no token, `WyzeRefresh` how many posts a refresh sends exactly. The methods
and loops of the class in `WyzeClient` compute these functions. `Reconnect` is the retry loop with its backoff.

## What the code does, where that may surprise

- A caller that joins a pending snapshot waits for ever exactly when the start command of that snapshot's record
  fails before the record is settled or captured (`StuckExactlyByFailedStart`, `StuckForever`,
  `CoalescedCallerCanHang`).
- A record that is rejected before its start command was accepted, and that nobody joined, is a rejected promise with
  no handler; no handler for such rejections is installed, so Node ends the process. `ProcessEndsExactly` says exactly
  when, `LoneTimeoutEndsProcess` shows the shortest case.
- Records are deleted by serial. A newer record with a live timer is missing from the map exactly when an older
  record's failed start, timer or capture swept it out (`SweptExactly`, `LiveUnmappedExactly`); it never gets a capture
  again and, unless one is open already, is never resolved (`UnmappedNeverResolves`). All three ways happen
  (`OldFailureRemovesNewerRecord`, `OldTimerRemovesNewerRecord`, `OldCaptureRemovesNewerRecord`).
- The attempt recorded after a debounce wait is the time before the wait. With one caller at
  a time the login after a given one always keeps the debounce away exactly when that one did not follow a wait
  (`LoginsAreSpaced`, `SpacedExactly`); otherwise they can be one millisecond apart (`LoginsCanBeAMillisecondApart`).
- The login after a debounce wait is not awaited, so a request can post its own URL without a token. It does exactly
  when no token is held, none is loaded and the debounce has not cleared at that moment, unless somebody else brings
  or takes one (`PostsWithoutTokenExactly`); `APostWithoutToken` shows it.
- A refresh answered by another access-token error starts a refresh inside the refresh, without bound
  (`RefreshesNestWithoutBound`). A refresh that comes to an end sends at most two posts exactly when none of its
  answers is such an error (`RefreshBoundExactly`), so does a post of its own with the refresh it leads to
  (`OwnPostRefreshesExactly`), and a login posts no refresh exactly when its own answer is none
  (`LoginRefreshesNothingExactly`). `RequestBounds` is for requests without such errors.
- The documentation of the stream-info cache says the signalling URL is returned untouched and the normalisation is
  idempotent. The code decodes a URL once when it holds `%25` and can be decoded, and leaves it untouched exactly
  otherwise (`UntouchedExactly`); a second application changes something exactly when the decoded URL again holds
  `%25` and can be decoded (`NormalizeUrlTwice`), as for `%2525` (`TwiceEncodedIsNotSettled`).
- A stream shares its cache key with another one, of a colon-free model, exactly when its own model has a colon
  (`CollidesExactly`), and clearing a MAC also clears the streams that `SpelledBy` names.
- A start whose fetch is slow connects even after a newer start, and replaces its connection
  (`SlowFetchReplacesConnection`); the connection made belongs to the current session exactly when nothing superseded
  the start (`FetchConnects`).
- A failing `addIceCandidate` abandons the queued candidates behind it for ever (`AFailureAbandons`,
  `AbandonedForEver`); candidates received equal candidates handed over exactly when that did not happen
  (`AllHandedOverExactly`).
- A callback of a superseded start that is past its guard can still act on the current session;
  `StaleEventsDisturbExactly` says which and when. A late incompatible answer uses up the automatic restart without
  making one (`StaleAnswerWastesRestart`).
- The Eufy page can say "connecting" with no timer behind it, exactly after a connected login closed or a timer ran out
  on an open connection (`SilenceBegins`), and then does until the cloud speaks (`SilenceLasts`). Both happen
  (`ClosedLoginIsSilent`, `ConnectedChallengeFallsSilent`).
- What the proxy holds back can still be forwarded exactly while the upstream has not opened yet
  (`CanBeEmptiedExactly`); a message sent while the upstream closes is stuck (`AMessageIsStuck`).
- The cut after the Ford loop would take the last character of the path from an empty payload (`FordPathIsKept`).

## Model

| member | source | states |
|---|---|---|
| Utf8.DecodeEncode | src/cameraStreamCapture.js:113-127 | Decoding the UTF-8 bytes of any string gives that string with each lone surrogate replaced by U+FFFD (section 3 of RFC 3629) |
| Utf8.ScrubbedIsIdentity | src/cameraStreamCapture.js:113-127 | That replacement is the identity exactly on strings without lone surrogates |
| Utf8.PointSpelled | src/cameraStreamCapture.js:113 | A code point takes one to four octets by its range, a lead octet and continuations, and is the number their free bits spell (section 3 of RFC 3629) |
| Base64.SextetsRoundTrip | src/cameraStreamCapture.js:113-127 | Bytes survive regrouping into sextets and back (section 4 of RFC 4648) |
| Base64.AlphabetIs | src/util.js:31 | The letters are those of table 1 of RFC 4648, the padding is `=` |
| Base64.GroupsAreNumbers | src/util.js:31 | Each group of bytes and its sextets are the same number, a short last group filled up with zero bits |
| Base64.AtobEncode | cam-frontend/public/viewer.html:461-470 | `atob` undoes the padded base64 of every byte sequence |
| Base64.LenientEncode | src/util.js:31-41 | Node's lenient decoder undoes the encoder on every byte sequence |
| Base64.SkippingChangesNothing | src/util.js:38-41 | Characters outside both alphabets do not change what Node's decoder reads |
| PercentCoding.UnescapeOfEncode | cam-frontend/public/viewer.html:461-463 | `unescape(encodeURIComponent(s))` is the UTF-8 of `s` as a binary string, and throws exactly on lone surrogates |
| PercentCoding.DecodeOfEscape | cam-frontend/public/viewer.html:464-470 | `decodeURIComponent(escape(...))` reads the UTF-8 of every well-formed string back |
| JsonText.ParseStringify | src/cameraStreamCapture.js:111-127 | `JSON.parse` undoes `JSON.stringify` for every JSON value, whatever its strings hold (RFC 8259) |
| JsonText.MemberForm | cam-frontend/public/viewer.html:819-823 | A member is written as its quoted name, a colon and its value |
| JsonText.ObjectForms | cam-frontend/public/viewer.html:819-823 | Objects are written in braces, members apart by commas |
| JsonText.ArrayForms | src/index.js:1519 | Arrays are written in brackets, items apart by commas |
| JsonText.StringifyClean | cam-frontend/public/viewer.html:816-825 | Written JSON never holds a lone surrogate or a raw control character, so the browser encoder never throws on it |
| SignalEnvelope.BrowserEncoderIsNodeEncoder | cam-frontend/public/viewer.html:461-463 | For every string the browser encoder is the Node one, and throws exactly on lone surrogates |
| SignalEnvelope.BrowserRoundTrip | cam-frontend/public/viewer.html:461-470 | `b64Decode` undoes `b64Encode` on every string without lone surrogates |
| SignalEnvelope.UrlSafeRoundTrip | cam-frontend/public/viewer.html:464-470 | `b64Decode` also reads the URL-safe alphabet with the padding left off (section 5 of RFC 4648) |
| SignalEnvelope.PayloadRoundTrip | cam-frontend/public/viewer.html:471-480 | For every JSON payload the direct reading fails and the base64 one returns the payload; the base64 of an object begins with `e` |
| SignalEnvelope.NodePayloadRoundTrip | src/cameraStreamCapture.js:124-129 | Node's reading of an encoded payload is the payload, for every JSON value |
| SignalEnvelope.SendersAgree | cam-frontend/public/viewer.html:816-825 | The browser and the Node sender write the same envelope for every action, payload and recipient |
| SignalEnvelope.EnvelopeRoundTrip | src/cameraStreamCapture.js:109-134 | What either side sends, each side reads back as the same type and payload; with an empty action Node, and with a falsy payload the browser, ignores it |
| SignalEnvelope.TypedMessageReads | src/cameraStreamCapture.js:118-134 | Any written message with a non-empty messageType and an encoded payload is read by Node as that type and payload, by the browser likewise when the payload is truthy, whatever its action |
| SignalEnvelope.UntypedMessageReads | cam-frontend/public/viewer.html:744-751 | One whose messageType is missing, null, false or empty is of the type its action names, on both sides |
| SignalEnvelope.PlainPayloadReads | cam-frontend/public/viewer.html:471-480 | A payload that is not encoded is read by the browser as it stands, for every JSON value |
| SignalEnvelope.UnreadablePayloads | cam-frontend/public/viewer.html:471-480 | A payload that can be read neither way, or is missing, is null on both sides |
| SignalEnvelope.EnvelopeNames | src/cameraStreamCapture.js:111-115 | What the senders write is under the names the receivers ask for |
| SignalEnvelope.NamesAsWritten | src/cameraStreamCapture.js:111-125 | These names, sign by sign |
| BulbCipher.XorUndone | src/util.js:27-29 | Exclusive-or of blocks, bit by bit, undoes itself |
| BulbCipher.CbcUndone | src/util.js:27-47 | CBC decryption undoes CBC encryption for every keyed permutation, key, IV and whole number of blocks (section 6.2 of NIST SP 800-38A) |
| BulbCipher.CbcBlocks | src/util.js:27-29 | Block n of the ciphertext is the encryption of plaintext block n combined with the block before it, with the initialisation vector before the first |
| BulbCipher.FirstBlock | src/util.js:25-29 | The key is also the initialisation vector |
| BulbCipher.PlaintextLayout | src/util.js:8-29 | The cipher is fed the text's bytes, 0x05 up to a whole block (a further block when there is nothing to fill) and a block of 0x10 |
| BulbCipher.UnpadPkcs7 | src/util.js:27-47 | The PKCS#7 padding of any bytes comes off (section 6.3 of RFC 5652) |
| BulbCipher.EscapedSlashesDecode | src/util.js:31-41 | Base64 with its slashes escaped decodes to the same bytes |
| BulbCipher.PadIsDropped | src/util.js:8-19 | Removing 0x05 from the padded text leaves what removing it from the text alone leaves |
| BulbCipher.DecryptEncrypt | src/util.js:8-53 | For every text, key and permutation: encryption fails exactly when the key is not 16 characters; otherwise decrypting gives the seven low bits of each unit without 0x05, with or without the slash escapes |
| BulbCipher.SurvivesUnchanged | src/util.js:8-53 | A text comes back unchanged exactly when it is seven-bit and holds no 0x05 |
| BulbCommand.CollapseQuoted | src/index.js:1533-1534 | Collapsing the pairs in a quoted, slash-escaped text gives the escaped text back, for any number and adjacency of slashes |
| BulbCommand.CollapsedBodyReads | src/index.js:1526-1534 | The rewritten body is valid JSON whose characteristics are the text without escapes, for every plain text |
| BulbCommand.UncollapsedBodyReads | src/index.js:1526-1534 | Without the rewrite the field would keep its backslashes |
| BulbCommand.BulbReadsCommand | src/index.js:1506-1534 | A body exists exactly when the key fits; a receiver that parses it and decrypts the field gets the characteristics back exactly when their text is seven-bit |
| BulbCommand.CharacteristicsAreValid | src/index.js:1507-1519 | The characteristics are a JSON value for every MAC, time stamp, property and value |
| BulbCommand.CharacteristicsReadBack | src/index.js:1507-1519 | Parsed again, the MAC, index, time stamp, property and value are each under their own name |
| BulbCommand.CommandReadsBack | src/index.js:1527-1531 | The command asks for set_status, not to be queued, with the characteristics under their name |
| BulbCommand.NamesAsWritten | src/index.js:1507-1531 | These names, sign by sign |
| CanonicalStrings.SortSorts | src/crypto.js:9 | Sorting keys gives an ascending list of the same keys |
| CanonicalStrings.LessExactly | src/crypto.js:9 | The order is that of the first code unit in which two keys differ, a key coming before what continues it |
| CanonicalStrings.TwoFieldsWritten | src/crypto.js:53-58 | Two fields, sign by sign: `k=v&l=w` with the lesser key first |
| CanonicalStrings.AscendingIsUnique | src/crypto.js:53-58 | Two ascending lists with the same members are the same list |
| CanonicalStrings.AppendedIsJoined | src/crypto.js:31-40 | The accumulated text of the loop is the joined text and one more `&` |
| CanonicalStrings.OliveBody | src/crypto.js:31-40 | oliveCreateSignature's loop computes the sort-map-join string of olive_create_signature, web_create_signature and _venusSortedQuery |
| CanonicalStrings.FordBody | src/crypto.js:7-15 | The Ford loop computes verb, path, the same joined string and the secret; with no fields the cut eats the last character of verb and path |
| CanonicalStrings.OrderDoesNotMatter | src/index.js:1596-1601 | The string depends on the object as a map, never on insertion order |
| CanonicalStrings.FordPathIsKept | src/payloadFactory.js:4-20 | The cut leaves the path alone exactly when there is a field, and fordCreatePayload always signs some |
| CanonicalStrings.FordSigns | src/payloadFactory.js:8-15 | What is signed is the payload with the token under its name for the method, the key and the time stamp, and nothing else changed |
| CanonicalStrings.QueryReadsBack | src/index.js:1596-1601 | The object can be parsed back from its string when keys and values avoid `&` and keys avoid `=` |
| CanonicalStrings.QueryIsInjective | src/crypto.js:109-116 | So such objects have equal strings exactly when they are equal |
| Snapshots.RunKeepsInv | eufy/server.js:426-456 | In every run: each record has a live timer, is settled or had its start fail; each mapped record has a live timer; a record without timer had a stop issued or its start failed; start commands equal records; captures are on time and stop once; each dispatch went to a capture of a record of its camera, a session opened for its camera, or a stop; each open session is the last one opened for its camera |
| Snapshots.EveryEventWasRouted | eufy/server.js:426-456 | In every run each livestream event went, at its moment, to a new capture of the live record mapped for its camera, else to the session open for its camera, the last one opened, else to a stop |
| Snapshots.ViewedExactly | eufy/server.js:663-687 | In every run a camera has a viewer exactly when one was opened for it and neither stopped nor failed since |
| Snapshots.GoneExactly | eufy/server.js:684-692 | In every run a session has had exactly one stop for its viewer leaving when it was ended so, else none |
| Snapshots.ConnectedExactly | eufy/server.js:361-378 | In every run the server is connected exactly when the cloud connected and has not closed since |
| Snapshots.OutcomeExactly | eufy/server.js:591-661 | In every run a record is resolved exactly by a capture of it that ended well, rejected exactly by its timer or one that did not, whichever came first |
| Snapshots.SettledInTime | eufy/server.js:591-661 | Every record whose start did not fail is settled within 15 s; every capture has settled its record within 10 s of its livestream and issued exactly one stop |
| Snapshots.SettlesOnce | eufy/server.js:633-661 | A settled record keeps its outcome in every continuation of every run |
| Snapshots.StuckExactlyByFailedStart | eufy/server.js:653-660 | A record becomes stuck in exactly one way: its own start fails while it is unsettled and no capture of it is open; and it stays stuck |
| Snapshots.StuckForever | eufy/server.js:633-661 | In every continuation a stuck record stays unsettled |
| Snapshots.EveryCallerHears | eufy/server.js:633-661 | Once its record is overdue, a coalesced caller has not heard exactly when the record is stuck, and the creating caller exactly while the start command is unanswered |
| Snapshots.CoalescedCallerCanHang | eufy/server.js:638-639 | A concrete run that leaves a coalesced caller waiting for ever |
| Snapshots.ProcessEndsExactly | eufy/server.js:641-660 | A step leaves a rejected promise without a handler, which ends the process, exactly when the timer or a failed capture rejects an unsettled record whose start was not accepted and which nobody joined |
| Snapshots.LoneTimeoutEndsProcess | eufy/server.js:646-650 | A concrete run: one refresh, no answer to its start for 15 s; nothing but that answer can happen any more |
| Snapshots.SweptExactly | eufy/server.js:646-658 | A step takes a mapped record out of the map with its timer live exactly when it is the failed start, the timer or the end of a capture of another record of the same camera |
| Snapshots.LiveUnmappedExactly | eufy/server.js:440-443 | In every run a record with a live timer is missing from the map exactly when some step of the run swept it out so |
| Snapshots.UnmappedNeverResolves | eufy/server.js:426-445 | A record out of the map with no open capture gets no capture and is never resolved, in any continuation |
| Snapshots.OldFailureRemovesNewerRecord | eufy/server.js:655-658 | A run in which an old record's failed start unmaps a newer record with a live timer, the process living on |
| Snapshots.OldTimerRemovesNewerRecord | eufy/server.js:646-647 | A run in which an old record's timer does |
| Snapshots.OldCaptureRemovesNewerRecord | eufy/server.js:440-443 | A run, every start accepted, in which the end of an old record's capture does |
| Snapshots.CapturesStayOk | eufy/server.js:431-445 | Every step keeps captures on time and their stops exactly once |
| Snapshots.NothingIsRerouted | eufy/server.js:426-456 | No step changes where an earlier livestream event went |
| SnapshotServer.Server.RefreshSnapshot | eufy/server.js:633-654 | Refused exactly when not connected or a viewer is active; otherwise the call waits for a mapped record of its camera with a live timer of at most 15 s, and a start is issued exactly for a new record |
| SnapshotServer.Server.OnRecordTimer | eufy/server.js:646-650 | Afterwards the record is settled, out of the map, and a stop was issued for it |
| SnapshotServer.Server.OnLivestreamStart | eufy/server.js:426-456 | The event goes to a new capture of the live mapped record, else to the last session opened for the camera while open, else to a stop |
| SnapshotServer.Server.CleanUp | eufy/server.js:440-444 | The capture issues its one stop now, with its record settled and out of the map |
| SnapshotServer.Server.StopSession | eufy/server.js:684-693 | The camera has no viewer afterwards, and the one that left has had exactly one stop |
| SnapshotServer.Server.OpenSession | eufy/server.js:663-668 | The camera's session is now the last one opened for it |
| AutoSnap.ScheduleIsKept | eufy/server.js:204-247 | In every run from a start: live intervals are exactly the values of the timer map, one each; scheduled cameras are configured; from the first connection until shutdown the periods in milliseconds are exactly the configured minutes times 60 times 1000, however often it reconnects |
| AutoSnap.OneIntervalEach | eufy/server.js:206-227 | The timer map and the live intervals match one to one |
| AutoSnap.OnlyItsOwnCamera | eufy/server.js:229-241 | A change leaves other cameras alone, changes nothing when refused, clears the camera when off, else gives it a fresh interval |
| AutoSnap.AllowedExactly | eufy/server.js:229-236 | A value is refused exactly when it is none of 0, 1, 5, 15, 30, 60 and not null; off is exactly 0 or null |
| AutoSnap.LoadedExactly | eufy/server.js:189-192 | A stored camera is loaded with its minutes exactly when they are finite and at least 1 |
| AutoSnap.ShutdownClears | eufy/server.js:973-975 | After the interrupt no interval is left |
| AutoSnap.RestartRestores | eufy/server.js:185-202 | A new process that loads the stored file and connects has the same minutes and periods, unless the last write failed |
| AutoSnap.Scheduler.constructor | eufy/server.js:185-197 | The load loop yields the finite minutes of at least one |
| AutoSnap.Scheduler.ClearAutoSnapTimer | eufy/server.js:206-210 | Exactly the camera's interval is gone; timers and intervals still match one to one |
| AutoSnap.Scheduler.ScheduleAutoSnap | eufy/server.js:212-227 | A configured camera has one interval at its period, another none; timers and intervals still match |
| AutoSnap.Scheduler.SetAutoSnap | eufy/server.js:229-241 | Fails exactly on a value that is not allowed, then changing nothing; after a successful write the file loads as the minutes |
| AutoSnap.Scheduler.PersistAutoSnapConfig | eufy/server.js:199-204 | What was written loads as the minutes it was written from |
| AutoSnap.Scheduler.StartAllAutoSnapTimers | eufy/server.js:245-247 | The loop computes its recursive specification |
| AutoSnap.Scheduler.OnConnect | eufy/server.js:361-370 | The running periods are the configured ones, one interval for each camera, however often it connects |
| AutoSnap.Scheduler.OnInterrupt | eufy/server.js:973-975 | The loop leaves no interval and no timer |
| EufyLogin.AnswersMatchChallenges | eufy/server.js:287-316 | In every run each answer goes to the challenge then latest (a captcha answer with its id), no challenge is answered twice, answers plus the pending challenge never outnumber challenges; connected status implies the flag, error status its absence; the image shown is the latest |
| EufyLogin.CodesAsTyped | eufy/server.js:288-316 | In every run the cloud gets each code as it was typed, in order, and exactly those that met a challenge |
| EufyLogin.ChallengesAsAsked | eufy/server.js:342-359 | The challenges on record are those the cloud sent, in order |
| EufyLogin.PendingExactly | eufy/server.js:287-359 | In every run a challenge is pending exactly when one came that neither a non-empty code nor a connection has settled |
| EufyLogin.ConnectedExactly | eufy/server.js:361-378 | In every run the flag says exactly whether the cloud connected and has not closed since |
| EufyLogin.RisingIsShort | eufy/server.js:287-316 | Answers to distinct challenges, in order, are no more than the challenges |
| EufyLogin.SilenceBegins | eufy/server.js:274-285 | The page starts to wait without a timer exactly when a connected login closes or the timer runs out on an open connection |
| EufyLogin.SilenceLasts | eufy/server.js:274-285 | Then it waits on in every run until a challenge or a connection comes |
| EufyLogin.ClosedLoginIsSilent | eufy/server.js:371-378 | It does after connect and close |
| EufyLogin.ConnectedChallengeFallsSilent | eufy/server.js:276-284 | And after a challenge answered on an open connection, 5 s later |
| EufyLogin.NeverSilentBeforeConnecting | eufy/server.js:274-285 | Before a first connection every attempt has a live timer that ends within 5 s |
| EufyLogin.FirstAttemptIsTimed | eufy/server.js:462-466 | So it is from the start of the server, with 5 s for the first attempt |
| EufyLogin.NormalizedTwice | eufy/server.js:267-270 | Normalising a captcha image twice changes nothing |
| EufyLogin.NormalizedForm | eufy/server.js:267-270 | A data URI stays, anything else is taken for bare base64 of a PNG |
| EufyLogin.Login.SubmitAuthCode | eufy/server.js:288-316 | A non-empty code is submitted exactly when a challenge is pending: as typed, to the latest challenge, with 5 s on the timer; otherwise nothing changes, and the reply says which |
| EufyLogin.Login.OnFailTimer | eufy/server.js:276-284 | Gives up only while not connected; the page waits on without a timer exactly if it was waiting on an open connection |
| EufyLogin.Login.OnClose | eufy/server.js:371-378 | The page waits without a timer exactly if it did, or was connected |
| LoginDebounce.DebounceFormula | src/index.js:475-521 | In every run the debounce is min(1000 * 2^k, 300000), k being the waits that ended in a login since the last reset; no caller ever sleeps more than 150 times |
| LoginDebounce.DebounceExactly | src/index.js:475-521 | So it follows from the logins alone: k counts the logins after waits since the last login that came more than twelve hours after the recorded attempt before it |
| LoginDebounce.LoginsOnlyBy | src/index.js:426-446 | Which step sends a login, with what recorded attempt and debounce it leaves |
| LoginDebounce.WaitEndsExactly | src/index.js:500-507 | A wait ends with the first sleep after which there is a token or the 2 s sleeps have reached the debounce |
| LoginDebounce.TokenExactly | src/index.js:420-429 | In every run there is a token exactly when the file, a login or another caller brought one that was not cleared since |
| LoginDebounce.TokenMeansDone | src/index.js:427-429 | A caller that finds a token is through and logs in no more |
| LoginDebounce.LoginsKeepTheDebounce | src/index.js:420-521 | With one caller at a time every login comes at least the debounce then in force after the recorded attempt before it |
| LoginDebounce.LoginsAreSpaced | src/index.js:435-445 | With one caller at a time a login comes at least the debounce in force after the login before it, unless that one followed a wait |
| LoginDebounce.AfterWaitTheNextCanCrowd | src/index.js:514-521 | After any login that followed a wait some calm continuation brings the next one too early |
| LoginDebounce.SpacedExactly | src/index.js:435-445 | So every calm continuation keeps the next login a debounce away exactly when this one did not follow a wait |
| LoginDebounce.LoginsCanBeAMillisecondApart | src/index.js:445 | A concrete run: after a wait the recorded attempt is in the past, and two logins are a millisecond apart |
| WyzeRequest.RequestBounds | src/index.js:101-164 | With any interference at its awaits, and login and refresh answers that are no access-token errors: one request sends at most 2 posts of its own, 2 logins and 4 refreshes, each own post with the token then held; it ends within 332 wake-ups; it returns only an answer whose code is 1 or missing |
| WyzeRequest.SecondPostIsEarned | src/index.js:117-164 | A second post follows exactly one first, which was rate limited or whose refresh left a token, and comes no earlier than the deadline |
| WyzeRequest.RoundBounds | src/index.js:101-118 | One login-and-post: at most 1 post, 1 login, 2 refreshes, 165 wake-ups |
| WyzeRequest.RetryBounds | src/index.js:143-164 | The retry sends nothing before its deadline and never asks for another |
| WyzeRequest.RefreshBounds | src/index.js:528-564 | A refresh none of whose answers is itself a token error sends at most 2 posts |
| WyzeRefresh.RefreshBoundExactly | src/index.js:528-564 | A refresh that comes to an end sends at most 2 posts exactly when none of its answers is itself a token error |
| WyzeRefresh.OwnPostRefreshesExactly | src/index.js:342-362 | A post of its own leads to at most 2 refresh posts exactly when none of their answers is a token error |
| WyzeRefresh.LoginRefreshesNothingExactly | src/index.js:389-413 | A login posts no refresh exactly when it was not answered by a token error |
| WyzeRequest.MaybeLoginBounds | src/index.js:420-448 | maybeLogin sends at most 1 login and uses at most 151 wake-ups, although other callers move the bound of its loop |
| WyzeRequest.WaitBounds | src/index.js:495-508 | From its n-th sleep on the wait uses at most 150 - n more |
| WyzeRequest.OnlyAcceptedIsReturned | src/index.js:266-300 | A post succeeds only with an answer whose code is 1 or missing |
| WyzeRequest.PostAsksAgain | src/index.js:321-362 | A post asks for a retry only after a rate limit, or a token error whose refresh decides whether |
| WyzeAnswers.ClassifiedExactly | src/index.js:266-340 | What becomes of an answer, from its code and its own text alone |
| WyzeAnswers.RateLimitAsksAgain | src/index.js:313-332 | A post answered by code 3044, or by 1000 and too many failed attempts, without naming credentials, ends in a request to retry 600000 ms later |
| WyzeAnswers.TokenErrorAsksAgain | src/index.js:334-362 | One answered by a token error whose refresh leaves a token ends in a request to retry at once |
| WyzeAnswers.CredentialsEndIt | src/index.js:273-278 | One that names bad credentials takes the token away and throws |
| WyzeAnswers.RetryIsSent | src/index.js:143-164 | Given the wake-ups and a login that succeeds, a round that asked for a retry is followed by a second own post, not before the time asked for, with the token then held, and that post decides the outcome |
| WyzeAnswers.RateLimitedRequestIsRetried | src/index.js:117-164 | With a token held throughout, a request whose first post is rate limited posts again, 600000 ms after the answer or later |
| WyzeAnswers.RefreshCarriesHeld | src/index.js:528-532 | The refresh sends the refresh token held when the token error was handled |
| WyzeAnswers.RefreshIsTriedAgain | src/index.js:552-557 | A failed refresh is tried again with the same data, two seconds later at the earliest |
| WyzeAnswers.LoginWrites | src/index.js:573-619 | A login that succeeds has written both tokens of its answer, each in its place |
| WyzeAnswers.RefreshWrites | src/index.js:540-546 | And so has a refresh |
| WyzeTokens.TokenFoundIsUsed | src/index.js:420-429 | A token held, or found in the file, is used as it is and nothing is posted |
| WyzeTokens.LoginIsPosted | src/index.js:435-437 | With neither and the debounce cleared, a login is posted at that very moment |
| WyzeTokens.PostsWithoutTokenExactly | src/index.js:439-446 | While nobody takes a token away, and nobody else brings one to a caller that has to wait: a post of its own carries none exactly when no token was held, none was loaded and the debounce had not cleared |
| WyzeTokens.OnlyWaitsEndWithoutToken | src/index.js:420-448 | While nobody takes a token away, maybeLogin that succeeds without a token had to wait |
| WyzeTokens.MaybeLoginLeavesLogin | src/index.js:420-448 | maybeLogin that succeeds leaves a token, or exactly else an unawaited login |
| WyzeTokens.APostWithoutToken | src/index.js:445 | A request alone that posts a login and then its own URL with no token |
| WyzeRefresh.RefreshesNestWithoutBound | src/index.js:528-564 | Without the hypothesis on refresh answers there is no bound: n of them make n nested refreshes |
| WyzeRefresh.ATokenError | src/index.js:334-340 | There is such an answer |
| WyzeClient.Client.PerformRequest | src/index.js:166-197 | A post succeeds only with an answer whose code is 1 or missing, and one that names a rate limit always asks for a retry 600000 ms later |
| WyzeClient.Client.RefreshToken | src/index.js:528-564 | The two-attempt loop computes its recursive specification and sends at most two posts |
| WyzeClient.Client.PersistTokens | src/index.js:604-633 | The two-attempt write loop computes its recursive specification |
| WyzeClient.Client.MaybeLogin | src/index.js:420-448 | At most one login whatever others do to the bound of the wait; on success there is a token, or else a login that is not awaited, unless somebody took a token away |
| WyzeClient.Client.WaitForDebounceClearance | src/index.js:495-508 | The wait loop computes its recursive specification and sleeps at most 150 times whatever others do to its bound |
| WyzeClient.Client.HandleRetry | src/index.js:143-164 | Sends nothing before the deadline, stays within the bounds of one round, and never asks for another |
| WyzeClient.Client.Request | src/index.js:101-132 | request() itself, with the bounds of RequestBounds |
| StreamCache.CacheRefinesFetching | src/index.js:2854-2906 | In every run of overlapping fetches, clears and ticks each result is a normalised API answer for its key: a cached one given less than its TTL before, an uncached one its own |
| StreamCache.CachedExactly | src/index.js:2884-2889 | In every run an entry is cached under a key exactly when some answer stored it there and no later answer or clear has touched the key |
| StreamCache.HitsExactly | src/index.js:2869-2875 | So a call is answered from the cache exactly when it allows that and such an entry is left whose TTL is not over |
| StreamCache.SanitizeKeeps | src/index.js:2796-2806 | The servers are the entries with a URL, in order and one for one, each with its own URL, user name and credential where it has them |
| StreamCache.KeySpelled | src/index.js:2850-2852 | The key, sign by sign |
| StreamCache.HitsAreForTheSameStream | src/index.js:2869-2875 | With colon-free models a cached result is the answer for the very same MAC, model and substream |
| StreamCache.KeyIsInjective | src/index.js:2850-2852 | Keys of colon-free models are equal exactly for equal streams |
| StreamCache.ColonInModelCollides | src/index.js:2850-2852 | With colons two different streams share a key |
| StreamCache.CollidesExactly | src/index.js:2850-2852 | A stream shares its key with another of a colon-free model exactly when its own model has a colon |
| StreamCache.ClearedStreams | src/index.js:2966-2968 | Clearing a MAC deletes exactly its own streams, those of a MAC extending it with a colon, and those whose MAC and model spell it |
| StreamCache.ClearForgets | src/index.js:2960-2969 | A clear leaves nothing of the MAC and everything else; in any later run what is cached of it was answered after the clear |
| StreamCache.UntouchedExactly | src/index.js:2777-2787 | A URL is returned untouched exactly when it holds no `%25` or cannot be decoded |
| StreamCache.NormalizeUrlTwice | src/index.js:2777-2787 | Normalising again changes something exactly when the URL holds `%25` and decodes to one that does so too |
| StreamCache.TwiceEncodedIsNotSettled | src/index.js:2777-2787 | So it does for `%2525` |
| StreamCache.StreamInfoCache.GetConnectionInfo | src/index.js:2854-2878 | Returns a bundle exactly on a hit, backed by an answer for its key younger than its TTL |
| StreamCache.StreamInfoCache.OnAnswer | src/index.js:2878-2890 | The bundle has the answer's usable servers in order, each with its own fields, the answer's own token, and its URL untouched exactly when that cannot be decoded or needs no decoding |
| StreamCache.StreamInfoCache.ClearCamera | src/index.js:2960-2969 | The key-by-key loop is the machine step |
| Reconnect.CameraStreamWithReconnect | src/index.js:2940-2953 | Ends at the first call that succeeds, uses up the attempts or has onRetry throw; the result is that of this call; onRetry saw every earlier failure with its number; the i-th sleep is baseDelayMs * 2^i |
| Reconnect.CallsAreFirstSuccess | src/index.js:2940-2953 | When onRetry never throws, the calls are the lesser of the first success and max(1, maxAttempts), and the last error is rethrown |
| Reconnect.TotalSleep | src/index.js:2949-2950 | All sleeps sum to baseDelayMs * (2^(calls-1) - 1) |
| IceSignalling.CandidatesAreConserved | cam-frontend/public/viewer.html:744-806 | In every interleaving of one session at most one answer is applied, no candidate is added before it, none is dropped, and the received are as a multiset the added plus the queued ones |
| IceSignalling.AllHandedOverExactly | cam-frontend/public/viewer.html:764-801 | In every run, once the answer handler is through, received equals handed over as multisets exactly when no queued candidate failed with others behind it |
| IceSignalling.FailedAnswerLeavesOffer | cam-frontend/public/viewer.html:769-795 | An answer that could not be applied leaves the offer standing, and the next one is accepted |
| IceSignalling.AbandonedForEver | cam-frontend/public/viewer.html:767-795 | If one did, those behind it stay in the queue in every continuation and only later arrivals are handed over |
| IceSignalling.AFailureAbandons | cam-frontend/public/viewer.html:767-795 | A run in which the second of two queued candidates is abandoned |
| IceSignalling.Session.OnAnswer | cam-frontend/public/viewer.html:753-764 | Accepted exactly while an offer stands and no answer is being handled; then none was applied and no candidate handed over before |
| IceSignalling.Session.OnCandidate | cam-frontend/public/viewer.html:797-801 | Hands the candidate over exactly once an answer was applied, and never drops it |
| StreamSession.TokensRise | cam-frontend/public/viewer.html:575-580 | Starts and stops, and nothing else, raise the token |
| StreamSession.GuardsStayShut | cam-frontend/public/viewer.html:690-717 | A callback of a superseded start never passes its guard again, in any run |
| StreamSession.StaleEventsDisturbExactly | cam-frontend/public/viewer.html:690-813 | Which events of a superseded start leave the current session alone: those stopped by a guard always, a late error, incompatible answer or failed fetch exactly when no promise is open (and no restart is left to use up), a late successful fetch never |
| StreamSession.StaleAnswerWastesRestart | cam-frontend/public/viewer.html:778-784 | A late incompatible answer uses up the automatic restart and makes none that is due |
| StreamSession.AtMostOneRestart | cam-frontend/public/viewer.html:769-790 | In every run there is at most one automatic restart between two starts by the user, and with restarts still due never more |
| StreamSession.WaitersSettle | cam-frontend/public/viewer.html:557-573 | In every run each waiter has settled once its 2.5 s are over, and never changes then |
| StreamSession.PromisesTellExactly | cam-frontend/public/viewer.html:565-573 | Over any run a promise resolves true exactly when the first event that settles it is a video track of the current start, false exactly when it is its timeout, a stop or start, a loss, a socket close, an error, an incompatible answer or a failed fetch |
| StreamSession.PromisesAreMade | cam-frontend/public/viewer.html:565-573 | A successful fetch, and nothing else, makes a promise with 2.5 s to go |
| StreamSession.RestartIsMadeExactly | cam-frontend/public/viewer.html:778-784 | An incompatible answer brings a restart 500 ms later exactly when none was used since the last start by the user |
| StreamSession.UserStartAllowsRestart | cam-frontend/public/viewer.html:577-579 | A start by the user allows one again |
| StreamSession.StartsFetchExactly | cam-frontend/public/viewer.html:580-590 | A start, by the user or by a restart whose token is current, fetches exactly when the camera is online |
| StreamSession.NewSession | cam-frontend/public/viewer.html:557-620 | All of it holds of every run of a new session |
| StreamSession.TokenStaysExactly | cam-frontend/public/viewer.html:575-580 | Over any run the token is the same exactly when there was no start, stop or effective restart |
| StreamSession.FetchConnects | cam-frontend/public/viewer.html:602-611 | Whatever happens between a start and the answer to its fetch, the connection made then is the current session's exactly when no start, stop or effective restart came in between |
| StreamSession.SlowFetchReplacesConnection | cam-frontend/public/viewer.html:602-611 | A concrete run in which a superseded start replaces the live connection |
| StreamSession.Session.ResolveStartWaiters | cam-frontend/public/viewer.html:557-563 | The loop over the waiters resolves them all and empties the list |
| StreamSession.Session.Stop | cam-frontend/public/viewer.html:827-859 | Every open promise resolves false and the connection is gone |
| StreamSession.Session.OnVideoTrack | cam-frontend/public/viewer.html:690-702 | On a track for the current start every open promise resolves true |
| StreamSession.Session.BeginStart | cam-frontend/public/viewer.html:575-590 | The token is new, so no earlier callback passes its guard, and every open promise resolves false |
| EventPoller.PolledIsExact | cam-frontend/server.js:298-299 | The poller goes through exactly the events after the time it asked with, earliest first |
| EventPoller.NotifiedOnce | cam-frontend/public/viewer.html:1219-1262 | In every run, polls overlapping or not: no id is notified twice, the seen ids are exactly the notified ones, and the watermark is the maximum of the start time and the times notified since |
| EventPoller.AlertsOnExactly | cam-frontend/public/viewer.html:1254-1269 | In every run alerts are on, and polls due, exactly when they were started and not stopped since |
| EventPoller.ReturnedIsNotified | cam-frontend/public/viewer.html:1225-1230 | Every event a poll returns has one notification in every later state, and only one |
| EventPoller.NotifiedInOrder | cam-frontend/public/viewer.html:1219-1262 | Without overlapping polls the notifications of a period never go back in time and go strictly forward between polls |
| EventPoller.NewPage | cam-frontend/public/viewer.html:1219-1262 | A fresh page satisfies all three invariants |
| EventPoller.Poller.BeginPoll | cam-frontend/public/viewer.html:1219-1221 | Asks from a time no notification of the period is later than |
| EventPoller.Poller.OnAnswer | cam-frontend/public/viewer.html:1222-1230 | The loop computes its recursive specification, and every returned event is then seen |
| ProxyQueue.NothingIsLostOrReordered | cam-frontend/server.js:387-411 | At every point of every run: forwarded then pending is what the browser sent, in order; nothing is pending while the upstream is open; the browser got what came from upstream while its socket was open, closing sockets included |
| ProxyQueue.NewProxy | cam-frontend/server.js:382-412 | Every run of a new proxy satisfies it |
| ProxyQueue.NoneAfterClosing | cam-frontend/server.js:402-411 | Once the upstream began to close, nothing more is forwarded or delivered in any run |
| ProxyQueue.CanBeEmptiedExactly | cam-frontend/server.js:387-405 | From any state some run empties the queue exactly when it is empty or the upstream has not opened yet |
| ProxyQueue.AMessageIsStuck | cam-frontend/server.js:402-405 | A run in which a message sent after the upstream's close frame is never forwarded in any continuation |
| ProxyQueue.Proxy.OnUpstreamOpen | cam-frontend/server.js:388-391 | Everything received so far is forwarded, nothing is pending |
| ProxyQueue.Proxy.OnClientMessage | cam-frontend/server.js:402-405 | The message joins the end of forwarded and pending, and is forwarded at once while the upstream is open |

## Left out

- HTTP routing, static files, server-sent events, ffmpeg arguments, the DOM, badges, overlays and toasts: plumbing.
- The one-line device methods, the lookup filters and the enum tables: thin wrappers and finite tables.
- AES, MD5 and HMAC: AES is any keyed permutation of blocks, the hashes that follow the canonical strings are not modelled, nor is the percent-encoding of the Ford string.
- Numbers in JSON are kept as they are written; a lexeme that underflows to zero counts as not zero.
- A `messagePayload` that is not a string (Node reads arrays, the browser any value) counts as no payload.
- Values in the canonical strings are already converted by `String`; payloads that are not objects pass through untouched in the source and are not modelled.
- `toLowerCase` in the error classification acts on ASCII letters only.
- Timers fire on time and microtasks before the clock moves; a delay beyond the platform's maximum, which would fire at once, is not modelled.
- In `WyzeRequest` what other callers, and a login that is not awaited, do to the shared fields is arbitrary interference at each await.
- The login that maybeLogin does not await has no catch either: if it fails, at once for a missing key or later, its rejection has no handler, which ends a Node process that installs none. The model of requests runs on.
- The date and header arithmetic of the rate-limit check is one non-negative sleep brought by the answer; an invalid header, which the source logs and ignores, is a sleep of zero.
- `StreamSession` merges the wait for the microphone in start() with the fetch after it; errors of the peer connection's constructor count as a failed fetch.
- In `Snapshots` a rejected promise without a handler lets only the continuations of promises run on; when within a turn Node looks for such promises is not modelled further.
- In `EventPoller` notifying never throws, events have numeric times and an id, and the normalisation of names and thumbnails is left out.
- In `AutoSnap` file writes complete in order, and what an interval does when it fires is the Refresh event of `Snapshots`.
- A clean takeover by a second viewer: the source deletes sessions by serial and does not close the old socket, so that is not what it does; sessions appear only as far as livestream dispatch needs them.
- Reconnect.CameraStreamWithReconnect: maxAttempts is an integer and baseDelayMs a real, because a fractional limit acts as the next integer; an infinite limit has no bound to prove.
- LoginDebounce.LoginsKeepTheDebounce: measured from the recorded attempt, which after a wait is the time before it; the spacing between logins, which then fails, is LoginsAreSpaced and SpacedExactly.
- JsonText.ParseStringify: numbers stay as they are written, so the conversion of a number to text and back is not covered.
