# Verification of the batch push of libcapn and pypusher

This project models how `apn_send` delivers one notification to a list of device tokens over
Apple's legacy binary interface, the bytes it puts on the wire, and the loop of `pypusher` that
runs the command line tool again and again until its token file is used up.

The protocol has two parties. The client streams one frame per device token and numbers the frames
with the token's index. The gateway reads the frames of a connection in order until it refuses one,
answers with an error packet (command 8, status, id) and ignores whatever is behind that frame. The
client may notice the packet after any number of further writes; it then has to map the id back to
a token, record the token, reconnect and go on behind it. Writes, reads, shutdowns and reconnects
may fail at any moment.

## How the files fit together

| file | content |
|---|---|
| `Protocol.dfy` | the step machine: client, connections, gateway; every list of events is a run |
| `Settled.dfy` | nothing below the resume index is lost, and exactly when |
| `Recorded.dfy` | a recorded token was refused by the gateway, and exactly when |
| `Success.dfy` | what a successful return says about the batch, and exactly when |
| `Backlog.dfy` | the same conditions in terms of what each connection shows, for runs without resets |
| `Witnesses.dfy` | concrete runs in which each of these properties fails |
| `Duplication.dfy` | how often one notification can be delivered or its token reported |
| `ExactlyOnce.dfy` | rejection-only batches: exactly once, conservation, termination |
| `Retries.dfy` | bounds on rounds and steps under retried faults |
| `Endings.dfy` | what follows a failed round: the end, a new connection, or the old one |
| `Bytes.dfy`, `Frame.dfy` | big-endian numbers; the frame as bytes and an independent tagged-item reader |
| `Tokens.dfy` | the hex and binary token codec |
| `BinaryMessage.dfy` | the frame buffer, built once and patched in place |
| `Carriers.dfy` | which token each frame carries when some are malformed |
| `Network.dfy` | connections and gateway on raw bytes, the partial-write loop, refinement of the machine |
| `Client.dfy` | the context, one round, and `apn_send`, proved to do what the machine does |
| `Delivery.dfy` | the protocol theorems about the bytes the gateway decodes |
| `Text.dfy` | lines, blanks and decimal numbers |
| `TokenFile.dfy`, `Report.dfy`, `Outer.dfy` | the token file, the report of invalid tokens, the outer loop |
| `Pushes.dfy` | what the outer loop cuts off and what became of it, and exactly when |
| `Ideal.dfy` | the outer loop when nothing goes wrong but refusals: who is notified twice |
| `Utf8.dfy`, `ApnArray.dfy` | the UTF-8 scanner and the growable array |

`Client.Send` is a method over objects with fields and loops, and its contract says that the run it
takes part in is the run of the step machine over the events it met. The theorems are about every
run of the machine, so they hold of the method; `Delivery` restates them about decoded bytes.

## Assumptions about the surroundings

* The schedule of events stands for time, the network and the gateway. A finite schedule is a prefix
  of an execution; `apn_send` can loop for ever, and then its result is `Pending`.
* The gateway sends command 8 packets of six bytes with a status between 1 and 255, and status 8 only
  for the first frame it does not accept. It may go on reading a connection the client has dropped.
* An SSL connection on which a write failed carries no further bytes.
* Tokens are C strings of any length and content, and the token file is any text; only the theorems
  about what is cut off assume a file of valid tokens.

## Where the code departs from its documentation

* `src/library/apn.h:43-49` says that other errors do not open a new connection. The code does not
  end the send after such an error either, except when reading fails in the final wait
  (`Endings.FaultEndsSend`): with tokens left the loop starts again (`src/library/apn.c:362-371`).
  It does so on the old connection as long as no earlier round with tokens left was retried. After
  one was, `auto_reconnect` stays set, and every error with tokens left opens a new connection, which
  is the promise that fails (`Endings.NotRetriedReconnects`, `Endings.AutoExactly`).
  `Duplication.DuplicationAttained` restarts on one connection, for every number of rounds. The same
  comment does not list the two network errors, after which the code does open a new connection
  (`Endings.ReconnectsExactly`).
* Such a restart may run on a connection the gateway has given up. Nothing sent there arrives, the
  error packet has been read already, and the call returns success after a second of silence
  (`Witnesses.DeadConnectionLoses`: one token, neither accepted nor reported, no read failure).
  Success means that every token is settled if and only if the frames still in flight are
  (`Success.SuccessExactly`), and does follow when the final wait lasts until the gateway has
  accepted what was sent (`Success.SuccessSettlesAll`).
* Without `APN_OPTION_RECONNECT` the frames behind a refused one are ignored by the gateway, and the
  call still returns success (`Witnesses.OptionOffLoses`, `Endings.OptionOff`).
* A read failure resumes at the current index although frames before it may still be in flight; they
  are lost and the call can still return success (`Witnesses.ReadFailureLoses`). `Settled.SettledExactly`
  and `Backlog.SettledExactlyWhenDrained` give the exact conditions under which the prefix stays safe.
* Status 5 is turned into "token invalid" without an index, so the client would blame token 0
  (`Witnesses.StatusFiveBlamesTokenZero`). What is recorded was refused, at every moment of a run, if
  and only if no such packet is read before token 0 has been refused (`Recorded.RecordedExactly`).
  Every frame declares a 32-byte token, so a gateway that uses the status as defined never sends it,
  and then only refused tokens are recorded (`Delivery.HonestRecorded`).
* `apn_send` ignores the result of setting a token. A malformed one goes out under its own id with the
  last valid token that was prepared before it (`Client.Prepare`, `Delivery.CarriedTokens`), whose
  device is notified again (`Delivery.FirstRoundTokens`).
* A refused token is recorded again after every reset, so there may be more invalid tokens than tokens
  (`Duplication.RecordedAttained`), and the tool prints their difference as an unsigned number
  (`src/pusher/pusher.c:333-334`, `Outer.Tool`).
* `apn_main` cuts the file behind the last token reported, although tokens before it may be lost: of any
  two tokens a push can remove both with the first neither accepted nor reported (`Pushes.CutLoses`). The
  lines cut off are settled if the push was safe up to its last record (`Pushes.OuterSafety`), and, in
  a push without resets of a file without duplicates, if and only if every connection before the
  last one whose refusal was read ended with a refusal that was read or with all its frames accepted
  (`Pushes.CutExactly`).
* `apn_main` pushes what lies behind the last reported token once more, although `apn_send` has delivered
  it already: with nothing wrong but refusals, every good token behind the last bad one is notified
  twice (`Ideal.IdealLoop`).
* `apn_string_is_utf8` accepts more than UTF-8 (`Utf8.OverlongAccepted`). An accepted string is text in
  UTF-8 if and only if none of its units is overlong, a surrogate, above U+10FFFF, or continued by a
  byte above 0xBF (`Utf8.TextExactly`).
* `remove_file_lines` in `src/pypusher/utils/file.py:19-24` iterates over the file and then calls `read`,
  which Python 2 refuses after an unfinished iteration. The model is the cut that is intended.

## Model

| member | source | states |
|---|---|---|
| Settled.SettledPrefix | src/library/apn.c:313-381 | In every run with safe faults, at every moment each index below `start_index` was accepted, or was refused and recorded, and so was everything up to the last recorded index |
| Settled.SettledExactly | src/library/apn.c:327-371 | For all runs: the prefix stays settled throughout if and only if no read failure strikes while an unsettled frame below the resume index is in flight and no status 5 is read before token 0 got its verdict |
| Backlog.SettledExactlyWhenDrained | src/library/apn.c:327-371 | With the reconnect option and no reset so far, the prefix stays settled if and only if every read failure strikes when the gateway has accepted all frames of the connection |
| Backlog.ResumeExactly | src/library/apn.c:355-371 | Without a reset, when a new connection is about to be opened, everything below the resume index is settled if and only if on each connection the refusal was read or all frames were accepted |
| Backlog.RecordedPrefixExactly | src/library/apn.c:332-353 | Without a reset, everything up to the last recorded index is settled if and only if this holds of each connection before the last one whose refusal was read |
| Backlog.SuccessExactlySeen | src/library/apn.c:749-767 | Without a reset, with the reconnect option or not, a successful run has settled every index if and only if it holds of each connection and a refusal read on the last one was that of the last token |
| Backlog.DrainedExactly | src/library/apn.c:681-689 | Without a reset the backlog of a connection is settled iff it is empty |
| Settled.ReadFailExactly | src/library/apn.c:681-689 | The same for one read failure: the new resume index is safe iff the backlog of the connection is settled |
| Settled.StatusFiveExactly | src/library/apn.c:793-795 | Reading status 5 moves the resume index to 1, which is safe iff token 0 got its verdict before |
| Settled.DrainedReadsSuffice | src/library/apn.c:681-689 | For all runs, with any options and resets: if every read failure strikes a drained connection and no status 5 is read, the prefix stays settled throughout |
| Witnesses.ReadFailureLoses | src/library/apn.c:681-689 | A run of two tokens that returns success although token 0 was neither accepted nor reported |
| Witnesses.DeadConnectionLoses | src/library/apn.c:362-371 | A safe run of one token, without read failure, that returns success although the token was neither accepted nor reported |
| Witnesses.OptionOffLoses | src/library/apn.c:355-371 | The same without the reconnect option, behind a refusal |
| Witnesses.RecordedBehindLoss | src/library/apn.c:681-689 | A run that records token 1 and returns success, with token 0 neither accepted nor reported |
| Witnesses.StatusFiveBlamesTokenZero | src/library/apn.c:793-795 | A run in which status 5 records token 0, which the gateway had accepted |
| Recorded.RecordedExactly | src/library/apn.c:332-353 | For all runs: every recorded index is one the gateway refused, at every moment, if and only if no status 5 is read while token 0 has not been refused |
| Recorded.RecordedRefused | src/library/apn.c:332-353 | With a gateway that does not send status 5 every recorded index was refused, whatever else fails |
| Settled.RefusalSettles | src/library/apn.c:659-663 | The id of a status 8 packet is an index of the batch, was refused, and everything before it is settled |
| Success.SuccessExactly | src/library/apn.c:749-767 | A safe run that returned success has settled every index if and only if it has settled what its last connection still carried |
| Success.SuccessSettlesAll | src/library/apn.c:749-767 | A safe run whose final wait ends only when the gateway has accepted what was sent returns success only after every token was accepted, or refused and recorded |
| Backlog.SuccessExactlyWhenDrained | src/library/apn.c:749-767 | With the reconnect option, no reset and drained read failures, a successful run has settled every index if and only if it ended with the refusal of the last token or the gateway has accepted all the last connection carried |
| Endings.FaultsPossible | src/library/apn_ssl.c:307-383 | A write or a read fails with one of four errors each, `select` with any system error but an interruption |
| Endings.ReconnectsExactly | src/library/apn.c:355-371 | With the option set and tokens left, a failed round opens a new connection if and only if the write or read found the connection closed, the network unreachable or timed out, or the packet has status 5, 8 or 10, or one was opened before; otherwise the old one is used |
| Endings.RoundOutcome | src/library/apn.c:327-381 | For every fault and every status: where the batch goes on, what is recorded, and how the call ends when nothing is left to send |
| Endings.FaultEndsSend | src/library/apn.c:355-380 | An error other than "token invalid" ends the call, with that error, if and only if it is a read failure in the final wait |
| Endings.NotRetriedReconnects | src/library/apn.c:313-371 | After an error that is not retried a new connection is opened if and only if an earlier round with tokens left was retried; otherwise the old one is used |
| Endings.AutoExactly | src/library/apn.c:355-364 | `auto_reconnect` is set exactly from the first retried round on |
| Endings.OptionOff | src/library/apn.c:355-371 | Without the option there is one connection, and nothing is accepted after the gateway stopped reading it |
| Duplication.BoundedDuplication | src/library/apn.c:327-359 | With R resets of the resume index any notification is accepted and its token recorded no more than R + 1 times, taken together, in any run with any faults |
| Duplication.RecordedAttained | src/library/apn.c:332-353 | For every R a run of two tokens with R resets that records one of them R + 1 times and ends in success |
| Duplication.DuplicationAttained | src/library/apn.c:362-371 | For every R a run with R resets that delivers a notification R + 1 times and is still in the loop |
| ExactlyOnce.ExactlyOnce | src/library/apn.c:313-381 | A finished rejection-only run succeeded; the accepted indices are the good ones and the recorded ones the bad ones, each once and in increasing order |
| ExactlyOnce.Conservation | src/pusher/pusher.c:333-334 | The number printed, tokens less invalid tokens, is the number of notifications accepted |
| ExactlyOnce.Terminates | src/library/apn.c:313-381 | A rejection-only run has a number of effective events bounded by the square of the batch, and can always go on until it is done |
| Retries.RefusalAdvances | src/library/apn.c:659-663 | On a fresh connection the refused id is not below the round's start, and the resume index moves behind one more bad token |
| Retries.RoundBound | src/library/apn.c:313-371 | With B bad tokens and F retried faults at most (F + 1) * (B + 1) rounds are begun |
| Retries.FinishesWithin | src/library/apn.c:715-767 | and the client takes at most (F + 1) * (B + 1) * (count + 2) steps |
| Retries.RetriedProgress | src/library/apn.c:313-381 | A retried run that is not done can always go on |
| Frame.BodyRoundTrip | src/library/apn_binary_message.c:143-181 | The tagged-item reader gets back the notification from the frame body |
| Frame.DecodeFirst | src/library/apn_binary_message.c:183-187 | A frame at the front of a stream is read whole and reading goes on right behind it |
| Frame.DecodePartial | src/library/apn_binary_message.c:183-187 | No proper prefix of a frame is read as a frame |
| Frame.DecodeSound | src/library/apn_binary_message.c:143-187 | A frame is read only from command 2, the length of its body, and a list of items with the fields of the notification among them |
| Frame.DecodeStream | src/library/apn.c:716-744 | Whole frames followed by a torn one are read as exactly the whole ones |
| Frame.DecodeCut | src/library/apn_ssl.c:307-346 | Wherever the byte stream is cut, the reader sees exactly the frames that end before the cut |
| Frame.WholeMeaning | src/library/apn_ssl.c:307-346 | The number of frames in the cut is the greatest that fits |
| Bytes.Places | src/library/apn_binary_message.c:150-156 | The first byte of a number counts most |
| Tokens.IsValid | src/library/apn_tokens.c:80-95 | Accepts exactly the strings of 64 characters of 0123456789abcdefABCDEF |
| Tokens.EverySpelling | src/library/apn_tokens.c:32-95 | Every spelling of every 32 bytes, in letters of either case, is accepted and denotes them |
| Tokens.ScannedMeaning | src/library/apn_tokens.c:45-52 | Two characters give the number `sscanf` reads from them, cut to a byte |
| Tokens.HexToBinary | src/library/apn_tokens.c:32-55 | The loop computes what `sscanf` makes of every two characters, and for a valid token the 32 bytes it denotes |
| Tokens.BinaryToHex | src/library/apn_tokens.c:57-78 | The buffer holds 64 upper-case digits and the terminator at index 64, despite the overlapping terminators |
| Tokens.BinaryOfHex | src/library/apn_tokens.c:42-77 | Hex and back is the identity on 32-byte tokens, and the printed token is valid |
| Tokens.HexOfBinary | src/library/apn_tokens.c:42-77 | Binary and back only turns letters into upper case |
| Tokens.BinaryEqual | src/library/apn_tokens.c:42-54 | Two valid tokens denote the same bytes iff they differ at most in case |
| BinaryMessage.PutItem | src/library/apn_binary_message.c:150-156 | Number, length and data are appended as one item |
| BinaryMessage.Message.constructor | src/library/apn_binary_message.c:96-195 | The buffer is the encoding of the payload, expiry mod 2^32 and priority with id 0; the frame is filled exactly; positions 8 and 46 + n |
| BinaryMessage.TokenSlot | src/library/apn_binary_message.c:189-189 | The bytes 8 to 40 are the token, and replacing them replaces the token |
| BinaryMessage.IdSlot | src/library/apn_binary_message.c:190-191 | The bytes from 46 + n are the id, and replacing them replaces the id |
| BinaryMessage.Message.SetId | src/library/apn_binary_message.c:69-74 | Patching in place changes the id and nothing else |
| BinaryMessage.Message.SetTokenHex | src/library/apn_binary_message.c:83-89 | A valid token replaces the token and nothing else; a malformed one is refused and changes nothing |
| BinaryMessage.LastPatchWins | src/library/apn_binary_message.c:69-89 | After any patches the last id and the last valid token stand, the rest is unchanged |
| BinaryMessage.Apply | src/library/apn_binary_message.c:197-211 | After any patches the buffer decodes to exactly the patched notification |
| Network.ParseErrorRoundTrip | src/library/apn.c:648-665 | Parsing an error packet gives its status, and its id exactly for status 8 |
| Network.PacketInverse | src/library/apn.c:648-665 | Every packet with command 8 is the error packet of its status and its 32-bit id |
| Network.TokenSizeAlwaysRight | src/library/apn_binary_message.c:143-148 | Every frame the gateway decodes has a token of 32 bytes |
| Network.WroteRefines | src/library/apn_ssl.c:307-346 | A complete write adds one frame to what the gateway decodes, a failed one adds none |
| Network.Net.SslWrite | src/library/apn_ssl.c:307-346 | However the writes are split, success appends the whole message once and failure a proper prefix of it |
| Network.Net.Write | src/library/apn.c:735-744 | Writing the current frame is the write step of the machine |
| Network.Net.Select | src/library/apn.c:723-730 | Waiting lets the gateway act, is repeated after an interruption and after a time-out with tokens left, and ends with an event the client can take |
| Network.Net.Receive | src/library/apn_ssl.c:348-383 | Reading takes the packet the gateway sent, once |
| Client.Context.Close | src/library/apn.c:158-168 | Afterwards there is neither socket nor SSL object |
| Client.Context.Connect | src/library/apn.c:558-646 | From a closed context it succeeds iff the attempt does, and then both handles are set; without a socket there is never an SSL object; with an open socket nothing happens |
| Client.Reconnect | src/library/apn.c:314-325 | A successful reconnect leaves a fresh connection without bytes or errors, and both handles on it |
| Client.Poll | src/library/apn.c:671-698 | A fault leaves index 0 or the current one, a packet its own, and the machine ends the round with the same |
| Client.Prepare | src/library/apn.c:717-719 | The buffer then encodes a notification with the next id, and the next token if it is valid; a malformed token leaves the one that was there |
| Client.SendBinaryMessage | src/library/apn.c:700-768 | One round over the patched buffer ends as a round of the machine, with the code, index and errno it returns; the code is the status of the packet, and stands for the error documented for it, for every status |
| Client.Send | src/library/apn.c:291-388 | For tokens of any form the whole call is a run of the machine: result, copies of the invalid tokens and accepted notifications agree with it, at every event the bytes on the wires match it, and each frame carries the token the patches left in the buffer; nothing is sent without a connection, and a payload is refused exactly if no frame fits it |
| Client.SendRounds | src/library/apn.c:313-381 | The same for the loop alone |
| Delivery.ConnectionsDecode | src/library/apn.c:716-744 | Each connection decodes to exactly the notifications written to it, with their ids, and the tokens wherever these are valid |
| Carriers.CarriedOwn | src/library/apn.c:716-719 | Each frame is assigned a valid token of the batch, or what the memory held at first, and the frames of a valid token that token |
| Delivery.CarriedTokens | src/library/apn.c:716-744 | In every run each frame on the wires carries the token so assigned |
| Delivery.FirstRoundTokens | src/library/apn.c:716-744 | As long as no round failed, the frame with id k carries the last valid token up to k |
| Delivery.WireDuplication | src/library/apn.c:327-359 | No decoded notification, and no id, is accepted more often than resets plus one |
| Delivery.WireExactlyOnce | src/library/apn.c:313-381 | A finished rejection-only batch has delivered the notifications of the good tokens, once each and in order |
| Delivery.StatusFiveNeverHonest | src/library/apn.c:793-795 | A gateway that reports token sizes truthfully never sends status 5 |
| Delivery.HonestRecorded | src/library/apn.c:332-353 | Over a whole run with such a gateway, whatever fails, a token is recorded only if the gateway refused its notification, which can be read from the bytes of a connection |
| Text.LinesOfUnlines | src/pusher/pusher.c:110-138 | Splitting inverts writing line by line, empty lines included |
| Text.LinesWithoutFinalNewline | src/pusher/pusher.c:121-125 | Also when the final newline is missing |
| Text.UnlinesOfLines | src/pusher/pusher.c:110-138 | The lines are newline-free and restore the text up to its final newline |
| Text.DecimalValue | src/pusher/pusher.c:333-334 | The digits printed have the value of the number |
| Text.StripMeaning | src/pypusher/utils/file.py:21-23 | Stripping takes the blanks at both ends and nothing else |
| Text.BlankCodes | src/pypusher/utils/file.py:21-57 | Blanks are the characters 9 to 13 and 32 |
| Text.ReturnsSplit | src/pypusher/pusher.py:33-34 | A carriage return ends a line, unless the newline follows at once |
| TokenFile.StrNCpy | src/library/apn_strings.c:138-167 | Copies the C string cut to the given size, which is cut by one if it does not fit |
| TokenFile.SubStr | src/library/apn_strings.c:125-136 | Copies the selected part, cut to what fits |
| TokenFile.ReadTokens | src/pusher/pusher.c:94-142 | The tokens are exactly the lines of the file, each up to its first NUL; only an empty file is refused |
| TokenFile.ReadBack | src/pypusher/utils/token.py:35-38 | Reading a file written one token a line gives the tokens back |
| TokenFile.File.RemoveLines | src/pypusher/utils/file.py:13-28 | Drops the given number of lines, or everything up to the first matching line |
| TokenFile.CutAfterLines | src/pypusher/utils/file.py:19-28 | The cut at a token leaves exactly the lines behind the first match |
| TokenFile.DropLinesLines | src/pypusher/utils/file.py:16-18 | The cut by number leaves exactly the lines behind that many |
| TokenFile.CutsAgree | src/pypusher/utils/file.py:13-28 | Cutting behind line k and cutting at its text agree if no earlier line is equal |
| Report.Print | src/pusher/pusher.c:337-346 | The loop prints the header, one numbered row per token, and an empty line |
| Report.ReportText | src/pusher/pusher.c:337-346 | The same in characters, with the decimal value of each number |
| Report.Parse | src/pypusher/utils/file.py:52-62 | The loop collects the 64-character second words behind the header |
| Report.ReportRoundTrip | src/pypusher/utils/file.py:52-62 | Parsing recovers what the printed rows hold, whatever lines without the header precede them, carriage returns included; tokens of 64 characters without blanks all come back |
| Outer.Tool | src/pusher/pusher.c:314-347 | One run of the tool on any token file prints the line for a file, a connection or a send that failed, or after success the decimal number of tokens less recorded ones modulo 2^32, and then exactly the tokens its send recorded |
| Outer.ApnPush | src/pypusher/pusher.py:20-39 | One push returns what can be read back of the recorded tokens and cuts the file behind the last of them |
| Outer.PushShortens | src/pypusher/pusher.py:36-38 | A push that reports something leaves fewer lines, whatever the lines are |
| Pushes.PushCuts | src/pypusher/pusher.py:36-38 | The last reported token is a line of the file, the cut is at or before it, and the file gets shorter |
| Pushes.PushCutsExactly | src/pypusher/pusher.py:36-38 | With distinct tokens exactly the lines up to the last recorded one are cut off |
| Outer.ApnMain | src/pypusher/pusher.py:42-50 | The loop ends after at most one push per line and one more, with the file the pushes leave; every push but the last reports something and the last nothing |
| Pushes.OuterSafety | src/pypusher/pusher.py:42-50 | What is left is a tail of the file, and, if the faults of each push up to its last record are safe ones, every line cut off was settled in one of the pushes |
| Pushes.OuterTail | src/pypusher/pusher.py:42-50 | What is left is a tail of the file after any pushes |
| Pushes.CutExactly | src/pypusher/pusher.py:36-38 | Of a file without duplicates, the lines a push without resets cuts off are settled if and only if no connection before the last one whose refusal was read left frames behind |
| Pushes.CutLoses | src/pypusher/pusher.py:36-38 | Of every file of two different tokens there is a push that removes both lines with the first neither accepted nor reported |
| Pushes.OuterComplete | src/pypusher/pusher.py:42-50 | If the pushes, safe up to their last records, used up the file, or the last one returned success after a long enough final wait, every token of the original file is settled |
| Ideal.IdealOutcome | src/pypusher/pusher.py:20-39 | With nothing wrong but refusals, one push delivers each good token once, bad ones never, and cuts behind the last bad one |
| Ideal.PrintedCount | src/pusher/pusher.c:333-334 | and the number printed is the number of notifications accepted |
| Ideal.IdealLoop | src/pypusher/pusher.py:42-50 | Then the loop takes one push if no token is bad and two otherwise; good tokens up to the last bad one are delivered once, those behind it twice |
| Utf8.IsUtf8 | src/library/apn_strings.c:71-98 | Accepts exactly what can be read as units from the front, never looking past the terminator |
| Utf8.UnitTable | src/library/apn_strings.c:58-93 | The units as ranges of bytes |
| Utf8.ScanComplete | src/library/apn_strings.c:82-95 | Every concatenation of units is accepted |
| Utf8.ScanSound | src/library/apn_strings.c:82-95 | Every accepted string is a concatenation of units |
| Utf8.SplitUnique | src/library/apn_strings.c:82-95 | in one way only |
| Utf8.AcceptsUtf8 | src/library/apn_strings.c:58-98 | The encoding of any scalar values by section 4 of RFC 3629 is accepted |
| Utf8.StrictExactly | src/library/apn_strings.c:58-98 | A unit encodes a scalar value iff it is in the table of section 4 of RFC 3629 |
| Utf8.UnitsText | src/library/apn_strings.c:82-95 | Accepted units are text in UTF-8 iff each of them is in the table |
| Utf8.TextExactly | src/library/apn_strings.c:71-98 | For every string: it is text in UTF-8 iff the scanner accepts it and all its units are in the table |
| Utf8.OverlongAccepted | src/library/apn_strings.c:88-93 | An overlong form is accepted, which is not text in UTF-8 |
| ApnArray.Array.constructor | src/library/apn_array.c:32-51 | An empty sequence with the given capacity |
| ApnArray.Array.Insert | src/library/apn_array.c:69-86 | Appends one item, the capacity doubling when it is used up; fails, and gives the items back, exactly if the doubled capacity would be zero in 32 bits |
| ApnArray.Array.ItemAtIndex | src/library/apn_array.c:119-123 | Returns the item of the sequence |
| ApnArray.Array.AmortizedMoves | src/library/apn_array.c:74-82 | Fewer items were moved by all reallocations than twice the number inserted |

## Left out

- Settled.SettledPrefix: excludes read failures over unsettled frames and status 5 before a verdict on token 0, because the property fails there; `Settled.SettledExactly` is the exact statement.
- Backlog.SettledExactlyWhenDrained: with resets or without the reconnect option the exact condition is the one of `Settled.SettledExactly`; there `Settled.DrainedReadsSuffice` is one-way, since a frame delivered in an earlier round does no harm in a later backlog.
- Backlog.SuccessExactlyWhenDrained: `Backlog.SuccessExactlySeen` is the statement without the option and without the condition on read failures; with resets `Success.SuccessExactly` is the exact one.
- Pushes.OuterSafety: excludes unsafe faults before the last record of a push, because the property fails there (`Pushes.CutLoses`); `Pushes.CutExactly` is the exact statement, for pushes without resets.
- Tokens.HexToBinary: strings of fewer than 64 characters, for which the C code is undefined; what it makes of a malformed token is discarded by `apn_binary_message_set_token_hex`.
- TokenFile.StrNCpy: a source size above the destination size, with no end of the string within the destination, for which the C code is undefined.
- ApnArray.Array.Insert: growing an array of more than 2^31 items, where the doubled size wraps around to a smaller one.
- Client.Send: a NULL `invalid_tokens` pointer, the invalid-token callback and logging; the token array and the array of invalid tokens are sequences, which `ApnArray` justifies.
- Outer.ApnMain: marking tokens invalid in the database, sleeping, and the log directory.
- TokenFile.File.RemoveLines: the mixed use of file iteration and `read` is taken as "the rest of the file behind the matching line".
- Network.Net.Receive: error packets that are cut short, carry another command, or status 0, which the gateway does not send.
- Outer.Tool: the error text printed on failure is any text without a newline or carriage return; token files of 2^32 - 1 lines or more.
- OpenSSL set-up, certificates, name resolution and sockets: only the outcome of a connection attempt is kept.
- The JSON document of the payload is an opaque sequence of bytes.
- Memory allocation failures.
- `parse_out_log`, which the push loop does not use, `apn_array_copy`, `apn_array_insert_at_index`, custom property keys, the feedback service, option parsing, setters and getters.
