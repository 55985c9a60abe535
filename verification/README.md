# A Dafny model of the verified signer

The verified signer runs in an enclave. It takes signing requests from users (with a Privy JWT) and
from a backend (with an HMAC), finds the user's delegated ethereum wallet, and has Privy sign with it.
Everything goes over vsock sockets. This project models the parts whose state, loops or interleavings
make them hard to trust by reading, and proves what they keep. `dafny verify dfyconfig.toml` checks it.

| file | what it models |
|---|---|
| `Sockets.dfy` | the retry engine of the non-blocking socket (`read`, `write`, `control`) for every closure; `WriteContext`, `ReadContext`, `Connect`, `Close` on top of it |
| `Proxy.dfy` | the two copying goroutines of a proxied connection, under every interleaving |
| `NetNs.dfy` | creating a socket in another network namespace on a locked OS thread |
| `Transport.dfy` | who owns a connection from `dial` to the close of a response body; the handshake goroutine |
| `Signer.dfy` | user cache, wallet provisioning and signing: the client class, and a step machine for any number of concurrent calls |
| `Auth.dfy`, `Pem.dfy` | JWT claims, the HMAC check, and the PEM re-formatter in front of JWT verification |
| `CanonicalRequest.dfy`, `Ordering.dfy` | AWS Signature Version 4 as the secret manager client computes it |
| `BigInts.dfy` | nil-tolerant big integers and their JSON forms |
| `KeyBuffers.dfy` | locked key buffers in signing and verifying, constant-time comparison |
| `Text.dfy`, `Wrappers.dfy` | string functions and option types shared by the above |

The kernel, the network poller, Privy, the clock, randomness and the expiry of cache entries are
arbitrary: they are arguments (`Script`, `World`, `Event`) about which nothing is assumed unless a
lemma says so. Code that updates state is a class or a method with a loop, proved equal to a function;
concurrent code is a step machine whose runs are all sequences of enabled events, and
`UninterruptedCall`, `RunOnItsOwn` and `TripOnItsOwn` tie the step machines to the methods.

## Where the code does less than it says

Each of these is a lemma, with the exact condition under which the code does what it says.

- `writeErr` and `readErr` say that they capture the error of the system call, and never assign it:
  they return nil for every final answer (`WriteErrReturnsNil`, `WriteErrTruthful`, `SendFailureUnreported`).
- `Connect` says that it verifies the peer, and `dial` takes a nil error for a connection. A nil error
  means one except exactly when the handshake ends in an error that is returned to the engine and not
  stored: a permanent failure of the first connect(2), or a later wake-up at which SO_ERROR cannot be
  read, as after a `Close` in between; then nil is returned unless the errno of an earlier wake-up is
  left over (`NilErrorTruthful`, `DialTruthful`, `ConnectFailureUnreported`,
  `GetsockoptFailureUnreported`). A non-nil peer always shows a connection (`PeerProvesConnection`).
- `WriteContext` ends after one successful write(2): a nil error means that everything was sent except
  exactly when that write is short, and on a stream more than 1 GiB is never sent whole
  (`WriteComplete`, `WholeBufferNeverSent`).
- The count of `WriteContext` is what the kernel took except exactly when the context ends between a
  write(2) that took bytes and the return: then 0 is reported (`WriteCounts`,
  `CanceledWriteUncounted`).
- The count of `ReadContext` is -1, no count of bytes, exactly when the read(2) that ends the retries
  fails (`ReadCountNegative`).
- Any use after `Close` should give EBADF. It does up to any number of calls below 2^32 and no further,
  because the counter wraps (`ClosedExactlyOnce`, `ClosedPerRound`, `CloseBoundExact`).
- `withNetNS` returns neither a connection nor an error exactly when its callback fails and the
  namespace is restored (`RunOnItsOwn`).
- A PEM key whose line breaks were replaced by spaces is restored, as a text, only if its body fits one
  line; one whose body is unwrapped always is (`SpacedLinesRestored`, `FormatConfluence`). What is not
  restored is white space in the body, so a decoder that skips it accepts the same tokens
  (`SpacedFormIrrelevant`).
- The canonical request depends on Go's map order when two header names differ only in case and carry
  different values (`OrderIndependent`).
- A user should get one wallet. In runs in which at most k calls for an id are between a fetch that saw
  no wallet and their create request, and no create request takes the last wallet away, at most n
  create requests add a wallet exactly when k <= n, or the id has a wallet already, or no call is ever
  admitted for it; so one wallet each is safe exactly as long as calls do not overlap there
  (`WalletsExactlyOverlap`).
- The cache should lead to the wallet that Privy's record leads to. Where calls for an id do not overlap
  it does, wherever Privy puts new accounts (`SequentialRefines`). Where they overlap it does exactly
  if Privy keeps the choice that creation has led to: a Privy that appends new accounts does, one that
  puts them first does not (`RefinementExactly`, `PlacementMatters`).
- The HMAC of a backend call covers the hash alone. The id in the body only has to be non-empty, so a
  header accepted for one id is accepted for the same hash and every other (`BackendIdUnchecked`,
  `BackendIdsAlike`).

## Model

| member | source | states |
|---|---|---|
| Sockets.Conn.Run | common/vsock/socket/conn.go:683-740 | the loop of `read` and `write`, turn by turn of the poller, computes `Operate`: closed check first, then the closure or the context error until ready, then the context error in preference to the poller's |
| Sockets.OperateReturnsNil | common/vsock/socket/conn.go:675-740 | for every closure whose context errors come from the context, as all of this package do: nil is returned iff the connection was open, the context live throughout, the poller never failed, and a first non-retryable result came after EAGAIN, EINPROGRESS and EINTR only; the captured variables are then those of running the closure on exactly these turns |
| Sockets.OperateFails | common/vsock/socket/conn.go:683-740 | which error comes back, in every case: EBADF on a closed connection, the poller's if it will not take the call, and else what the turn that ends the retries says, a context error before the poller's |
| Sockets.OperateBlocks | common/vsock/socket/conn.go:808-828 | the call is still blocked iff every turn so far was live and retryable |
| Sockets.OperateState | common/vsock/socket/conn.go:683-740 | however a call ends, the closure ran on a live prefix of the turns, was ready in its last run only, and never ran if the closed flag was seen |
| Sockets.RetryableErrors | common/vsock/socket/conn.go:808-828 | one answer of a system call sends the call back to waiting iff it is errno 4, 11 or 115 (EINTR, EAGAIN, EINPROGRESS) |
| Sockets.WriteErrReturnsNil | common/vsock/socket/conn.go:702-757 | nil is returned iff the retries ended on a live context, whatever the system call's last answer was: the documented capture of the error does not happen |
| Sockets.WriteErrTruthful | common/vsock/socket/conn.go:702-757 | nil means that the last system call succeeded iff the retries do not end, on an open connection and a live context, in a permanent failure |
| Sockets.SendFailureUnreported | common/vsock/socket/conn.go:742-757 | concretely, every permanent error of a first attempt is reported as success |
| Sockets.RunControlErr | common/vsock/socket/conn.go:764-806 | the loop of `control` under `controlErr` computes `ControlErr` |
| Sockets.ControlErrContract | common/vsock/socket/conn.go:764-806 | nil iff open, attached, and the last system call succeeded on a live context after retryable ones; and it is still looping iff all attempts were live and retryable, so it ends once one is not |
| Sockets.ControlRepeats | common/vsock/socket/conn.go:770-806 | one answer makes `control` repeat the system call iff it is one of these three; any other error comes back wrapped with the operation |
| Sockets.ControlErrReturns | common/vsock/socket/conn.go:764-806 | the attempt that ends the loop decides: its context error bare, its system call's error wrapped |
| Sockets.ControlErrEarly | common/vsock/socket/conn.go:764-770 | EBADF on a closed connection and the poller's own error, without an attempt |
| Sockets.ControlErrIsReady | common/vsock/socket/conn.go:795-828 | what `controlErr` returns is never a bare retryable errno, so a wrapped call inside `Connect` cannot send it back to waiting |
| Sockets.Conn.WriteContext | common/vsock/socket/conn.go:133-164 | the method computes `WriteRun` over the engine |
| Sockets.WriteProgress | common/vsock/socket/conn.go:133-164 | for any kernel, poller and context the bytes taken are exactly `b[..nn]` in order, every slice offered is in bounds and at most 1 GiB on a stream; nil reports exactly the bytes taken; an error ending the wait reports 0; after Close nothing is offered |
| Sockets.WriteReturnsNil | common/vsock/socket/conn.go:139-163 | with a kernel that either takes bytes or fails, `(n, nil)` is returned iff after retries that took nothing one write(2) of at most 1 GiB took n bytes, n > 0 unless b is empty |
| Sockets.WriteFails | common/vsock/socket/conn.go:145-163 | the error e of write(2) comes back, with count 0, iff the write(2) that ends the retries fails with e; one that takes nothing of a buffer that is not empty is an unexpected end of file |
| Sockets.OneWrite | common/vsock/socket/conn.go:139-163 | of m bytes that the kernel would take, exactly the first min(m, len(b), 2^30) go out on a stream, and min(m, len(b)) otherwise |
| Sockets.WriteComplete | common/vsock/socket/conn.go:133-164 | nil means that all of b was taken, iff no short write(2) ends the call |
| Sockets.WriteCounts | common/vsock/socket/conn.go:133-164 | the count returned is what the kernel took iff the context does not end between a write(2) that took bytes and the return |
| Sockets.CanceledWriteUncounted | common/vsock/socket/conn.go:159-161 | one byte is taken, the context is canceled, and 0 is reported |
| Sockets.WholeBufferNeverSent | common/vsock/socket/conn.go:140-143 | a stream write of more than 1 GiB is never reported complete |
| Sockets.Conn.ReadContext | common/vsock/socket/conn.go:104-126 | the method computes `ReadRun` over the engine, and the caller's buffer ends up as `ReadRun` says |
| Sockets.ReadReturns | common/vsock/socket/conn.go:104-126 | n > 0 bytes without error iff the read(2) that ended the retries, of at most 1 GiB on a stream, delivered n, which are then at the front of an otherwise unchanged buffer; end of file iff it delivered none without error where that means the end |
| Sockets.OneRead | common/vsock/socket/conn.go:110-125 | of the data there is, exactly the first min(len(data), len(b), 2^30) bytes come in on a stream, and min(len(data), len(b)) otherwise |
| Sockets.ReadCountNegative | common/vsock/socket/conn.go:113-125 | a count below 0, with a given error, iff the read(2) that ended the retries failed with it; it is then -1 |
| Sockets.Conn.Connect | common/vsock/socket/conn.go:433-511 | the method computes `ConnectRun` over the engine |
| Sockets.ConnectIssued | common/vsock/socket/conn.go:446-457 | connect(2) is issued exactly ceil(runs / 2^32) times: at most once iff there are at most 2^32 runs of the closure |
| Sockets.ConnectWaitsFirst | common/vsock/socket/conn.go:453-457 | the first connect(2) leads to waiting iff it answers EINTR, EAGAIN or EINPROGRESS |
| Sockets.ConnectCanceled | common/vsock/socket/conn.go:461-484 | a context that ends while a wake-up is handled ends the handshake with its error, after either system call |
| Sockets.SocketErrorReported | common/vsock/socket/conn.go:468-510 | a final SO_ERROR other than 0 comes back as it is, except that 106, EISCONN, is no error |
| Sockets.ConnectContract | common/vsock/socket/conn.go:433-511 | for any number of wake-ups the engine ends without error iff some turn ends the retries on a live context, and peer and error are then determined by that turn and by the errno remembered from earlier wake-ups; every earlier turn, spurious wake-ups included, went back to waiting |
| Sockets.PeerProvesConnection | common/vsock/socket/conn.go:478-510 | a peer is returned only if the last run was no connect(2), read SO_ERROR 0, and getpeername gave that peer; the error is then nil iff no errno is left over |
| Sockets.VerdictTruthful | common/vsock/socket/conn.go:453-510 | for the turn that ends the handshake: a nil error shows a connection iff an errno is left over, or the turn's error is not one that the closure drops |
| Sockets.NilErrorTruthful | common/vsock/socket/conn.go:433-511 | for every handshake: a nil error means that connect(2) succeeded or found the socket connected, or that SO_ERROR was EISCONN, or 0 with a peer, iff the handshake does not end, on an open connection and a live context, in a dropped error with no errno left over |
| Sockets.ConnectFailureUnreported | common/vsock/socket/conn.go:454-457 | the first dropped error: any final answer of the first connect(2) gives no peer and a nil error, and the socket is connected iff that answer was nil or EISCONN |
| Sockets.GetsockoptFailureUnreported | common/vsock/socket/conn.go:459-467 | the second: a wake-up at which SO_ERROR cannot be read gives no peer, a nil error and no connection |
| Sockets.Conn.Close | common/vsock/socket/conn.go:76-89 | the counter wraps at 2^32, the file is closed by the call that takes it to 1, and that call alone returns its error |
| Sockets.ClosedExactlyOnce | common/vsock/socket/conn.go:76-89 | in every interleaving of at least one and fewer than 2^32 closes the flag stays set, the file is closed exactly once when all are through, and a load gives EBADF iff it came after the first increment |
| Sockets.CloseCompletes | common/vsock/socket/conn.go:83-88 | a call that has taken on closing the file can always do so, after which it is closed once |
| Sockets.LoadSees | common/vsock/socket/conn.go:684-686 | an operation can start at any time and finds the flag set iff some call of `Close` came before |
| Sockets.ClosedPerRound | common/vsock/socket/conn.go:81-86 | for any number of closes: the flag reads 0 iff that number is a multiple of 2^32, and the file is closed once per started round |
| Sockets.CloseBoundExact | common/vsock/socket/conn.go:81-86 | the flag reads nonzero in all runs with at least one and at most m increments iff m < 2^32 |
| Proxy.PumpsDeliverPrefixes | common/vsock/proxy/proxy.go:16-44 | in every interleaving each side has received a prefix of what the other sent; both connections are closed iff the closing pump has ended, and open while it copies, whatever the other pump did |
| Proxy.ClosingPumpDelivers | common/vsock/proxy/proxy.go:43 | while the closing pump copies, everything that was sent so far can reach the other side, in at most three of its steps |
| Proxy.OtherPumpDelivers | common/vsock/proxy/proxy.go:43 | the same for the other direction while both connections are open |
| Proxy.PumpsCanEnd | common/vsock/proxy/proxy.go:28-44 | copying can end at any point; the closing pump's end leads to both connections closed with nothing more delivered, the other's leaves everything as it is |
| Proxy.WritesFailHalfway | common/vsock/proxy/proxy.go:36-43 | a failing write delivers any first part of what was read, and the closing pump goes on to close |
| Proxy.PeersSend | common/vsock/proxy/proxy.go:24-25 | both peers can send at any time |
| Proxy.NothingAfterClose | common/vsock/proxy/proxy.go:36-42 | once the closing pump has ended no byte is delivered to either side |
| Proxy.ClosingCompletes | common/vsock/proxy/proxy.go:36-42 | a closing pump that stopped copying can always take its two close steps, after which both connections are closed and nothing more was delivered |
| Proxy.ClosingPumpUnaffected | common/vsock/proxy/proxy.go:86-102 | whatever the other pump does, the closing pump and its side go through what they would go through without it |
| Proxy.OtherPumpNeverCloses | common/vsock/proxy/proxy.go:100-101 | in no run does the other pump take a close step |
| Proxy.OtherPumpUnaffected | common/vsock/proxy/proxy.go:100-101 | until the closing pump closes, the other direction goes through what it would go through alone |
| NetNs.WithNetNS | common/vsock/socket/netns_linux.go:23-76 | the thread is unlocked only in its original namespace; the callback runs in the namespace asked for or not at all; result, error and the closing of the connection for every outcome of the calls |
| NetNs.NamespacesRestored | common/vsock/socket/netns_linux.go:23-76 | for any number of interleaved runs: threads given back are in the namespace they started in, callbacks ran in the one asked for, connections are returned only with a nil error after the restore, and what was not returned is closed |
| NetNs.RunOnItsOwn | common/vsock/socket/netns_linux.go:23-76 | one uninterrupted run of the step machine ends as the method's contract says; a nil error comes without a connection iff the callback failed and the restore worked |
| Transport.DialTruthful | common/vsock/conn.go:20-62 | what `dial` returns is connected iff it returns nothing for want of a socket or its address, or the handshake does not end in an error that `Connect` drops |
| Transport.DialFails | common/vsock/conn.go:20-47 | `dial` fails iff making the socket, connecting or reading its address does, with the error of the first that does |
| Transport.DialAddresses | common/vsock/conn.go:30-62 | the local address is the socket's own; the remote one is the peer of the last wake-up if that had one, and else the address dialed |
| Transport.DialBelievesConnect | common/vsock/conn.go:20-62 | for one, any final answer of the first connect(2) yields a connection to the dialed address, and the socket is connected iff that answer was nil or EISCONN |
| Transport.Network.Dial | common/vsock/conn.go:20-62 | the socket stays open iff all three steps succeeded and is closed otherwise; both addresses of the result, a missing peer becoming the dialed address, or the first error |
| Transport.Network.PrepareRequest | common/network/transport.go:25-40 | scheme and deadline of the request that is sent, default 30 seconds; the caller's request is not changed |
| Transport.Network.PrepareTls | common/network/transport.go:49-54 | the host becomes the server name if there is none, in a copy of the shared configuration |
| Transport.Network.RoundTrip | common/network/transport.go:26-97 | open connections stay exactly those owned by unclosed bodies; success adds one body with one new connection, every failure has its error and leaves both as they were; peer, server name, deadline and scheme used |
| Transport.TripFails | common/network/transport.go:42-85 | a trip succeeds iff dial, handshake (with TLS), write and read do, and else has the error of the first that does not |
| Transport.ConnectionsConserved | common/network/transport.go:24-229 | in every run of any number of overlapping trips and closes, with any outcomes, the open connections are those of trips under way and of unclosed bodies, each owned by exactly one; when no trip is under way, those of the unclosed bodies |
| Transport.BodyCloses | common/network/transport.go:126-131 | an unclosed body can always be closed, which closes its connection, open until then, and touches no other |
| Transport.TripOnItsOwn | common/network/transport.go:154-208 | an uninterrupted trip of the step machine ends with a body on its new connection iff the method does, and otherwise leaves no connection behind |
| Transport.Network.CloseBody | common/network/transport.go:126-145 | closing a body closes exactly its connection, a second time nothing; the reader's error wins over the connection's |
| Transport.HelperNeverStuck | common/network/transport.go:100-118 | the handshake goroutine can deliver its result in every run, after a timeout too, iff the channel has room for it |
| Transport.ReceivesOwnError | common/network/transport.go:100-118 | in every run the error the caller receives is the one the handshake ended with |
| Transport.HandshakeOutcomes | common/network/transport.go:100-118 | any result of the handshake can reach the caller, and the caller can give up before |
| Auth.AcceptedToken | enclave/privy-signer/auth/jwt.go:33-55 | a token that the JWT library accepts now is accepted iff app, issuer and DID prefix are right and, in prod and staging only, it has not expired; the id returned is its subject |
| Auth.KeyFormIrrelevant | enclave/privy-signer/auth/jwt.go:71-106 | the three stored forms of one verification key accept the same tokens |
| Auth.SpacedFormIrrelevant | enclave/privy-signer/auth/jwt.go:71-106 | if the key decoder skips white space in a base64 body, the form with spaces for line breaks accepts the same tokens as the PEM text, for a body of any length |
| Pem.WrapBody | enclave/privy-signer/auth/jwt.go:91-101 | the chunk loop writes the body in pieces of 64 with newlines between |
| Pem.FormatVerificationKey | enclave/privy-signer/auth/jwt.go:71-106 | the code computes `Format` |
| Pem.FormatKeepsContent | enclave/privy-signer/auth/jwt.go:71-106 | for every string: only spaces and newlines differ from the expanded input, and no escape is left |
| Pem.FormatIdempotent | enclave/privy-signer/auth/jwt.go:71-106 | for every string, formatting twice is formatting once |
| Pem.FormatConfluence | enclave/privy-signer/auth/jwt.go:71-106 | the PEM text, its escaped form and its one-line form with unwrapped body all give the PEM text |
| Pem.BodyLinesUnique | enclave/privy-signer/auth/jwt.go:83-105 | lines of 64 and a last one of 1 to 64 (section 2 of RFC 7468) are determined by the body |
| Pem.OneLineKeyShape | enclave/privy-signer/auth/jwt.go:77-105 | every one-line key with a non-empty base64 body becomes header, such lines, footer |
| Pem.SpacedLinesRestored | enclave/privy-signer/auth/jwt.go:77-105 | a PEM text with spaces for newlines is restored iff its body is a single line |
| Pem.SpacedDiffersInSpaces | enclave/privy-signer/auth/jwt.go:77-105 | what formatting makes of that text differs from the PEM text in white space of the body only |
| CanonicalRequest.CollectHeaders | common/aws/secret_manager/secret_manager.go:221-228 | the map loop, in any order, lists every lower-cased name and files the trimmed value of the last header with it |
| CanonicalRequest.WriteHeaders | common/aws/secret_manager/secret_manager.go:231-234 | the builder loop writes one line per sorted name |
| CanonicalRequest.CreateCanonicalRequest | common/aws/secret_manager/secret_manager.go:214-241 | canonical request and signed-header list are those of some iteration order |
| CanonicalRequest.PrepareHeaders | common/aws/secret_manager/secret_manager.go:197-212 | the headers set before the canonical request is built |
| CanonicalRequest.PreparedHeaders | common/aws/secret_manager/secret_manager.go:203-212 | name by name: the four fixed headers, the token if there is one, and every other header as it was |
| CanonicalRequest.SignRequest | common/aws/secret_manager/secret_manager.go:190-258 | exactly the signing headers are added, and the authorization is the one for the prepared message in some iteration order |
| CanonicalRequest.OrderIndependent | common/aws/secret_manager/secret_manager.go:221-241 | the canonical request is the same for all iteration orders iff names differing only in case carry the same value |
| CanonicalRequest.SignatureDeterministic | common/aws/secret_manager/secret_manager.go:190-258 | under that condition the whole signed header is the same for all orders |
| CanonicalRequest.SignedNames | common/aws/secret_manager/secret_manager.go:222-236 | the signed names are sorted and cover exactly the request's headers; they are strictly ascending iff no two names differ only in case |
| CanonicalRequest.LowerCased | common/aws/secret_manager/secret_manager.go:225 | in a signed name every capital has become the letter of the same place in the lower-case alphabet, and everything else is kept |
| CanonicalRequest.TrimmedMeans | common/aws/secret_manager/secret_manager.go:227 | what is trimmed is blank, codes 9 to 13 and 32, and what is left neither starts nor ends so |
| CanonicalRequest.ValuesSigned | common/aws/secret_manager/secret_manager.go:227 | values without commas and blanks are all signed, in order: splitting the signed value at commas gives them back |
| CanonicalRequest.SameUri | common/aws/secret_manager/secret_manager.go:214-217 | only an empty path and "/" count as the same |
| CanonicalRequest.RenderLayout | common/aws/secret_manager/secret_manager.go:231-241 | the canonical request splits at newlines into verb, path, query, one name:value per header, an empty line, the names joined with semicolons, and the payload hash |
| CanonicalRequest.CanonicalInjective | common/aws/secret_manager/secret_manager.go:236-241 | without newlines in the parts or colons in names, two canonical requests are equal iff verb, path, query, all header pairs and payload hash are |
| CanonicalRequest.SameCanonicalRequest | common/aws/secret_manager/secret_manager.go:214-241 | two requests have the same canonical request iff they agree on verb, path with "" read as "/", query, payload hash and the lower-cased header map, whatever the iteration orders |
| CanonicalRequest.SameSignedRequest | common/aws/secret_manager/secret_manager.go:190-241 | the same for what `signRequest` signs, with conditions on the request alone: no newline in verb, path, query or headers and no colon in a header name; the payload counts through its digest, whose hexadecimal text needs no condition |
| CanonicalRequest.ScopeParts | common/aws/secret_manager/secret_manager.go:244 | the scope splits at slashes into date, region, "secretsmanager" and "aws4_request" |
| CanonicalRequest.SigningKeyChain | common/aws/secret_manager/utils.go:24-30 | the signing key is the HMAC chain over just these parts, in this order, from "AWS4" and the secret |
| CanonicalRequest.StringToSignParts | common/aws/secret_manager/secret_manager.go:245-246 | the string to sign splits into algorithm, time, scope and the hexadecimal digest of the canonical request |
| CanonicalRequest.AuthorizationParts | common/aws/secret_manager/secret_manager.go:253-254 | the header splits at commas into algorithm with credential and scope, signed names, and the hexadecimal HMAC of the string to sign under the signing key |
| CanonicalRequest.SignatureCovers | common/aws/secret_manager/secret_manager.go:239-254 | unless SHA-256 or HMAC collide on them, two canonical requests get the same header iff they and their signed names are the same |
| CanonicalRequest.SignatureCoversRequest | common/aws/secret_manager/secret_manager.go:190-258 | and two requests iff verb, path, query, payload and every lower-cased header agree |
| Ordering.SortedUnique | common/aws/secret_manager/secret_manager.go:229 | a sorted list of names is determined by its contents |
| Ordering.LeqMeans | common/aws/secret_manager/secret_manager.go:229 | the order is that of the first difference, a prefix coming first |
| Signer.FindEthWallet | enclave/privy-signer/data/privy_user_data.go:44-53 | the first delegated ethereum account, and none iff there is none |
| Signer.FindListed | enclave/privy-signer/privy_user_manager.go:173-186 | the search in a create response computes `FirstListed`, in which a null entry before the first match is the panic it causes |
| Signer.FirstListedOf | enclave/privy-signer/privy_user_manager.go:173-186 | without null entries that is the wallet `FindEthWallet` finds in the listed accounts |
| Signer.FirstListedMeans | enclave/privy-signer/privy_user_manager.go:173-179 | a wallet is found iff some listed account is delegated and ethereum with no such account and no null entry before it, and is that account |
| Signer.PrivyClient.CreateUserWalletsIfNotExists | enclave/privy-signer/privy_user_manager.go:92-187 | a user with a wallet is returned as is; otherwise one create request is sent and the first listed wallet appended, or the error that its failure maps to |
| Signer.PrivyClient.GetUser | enclave/privy-signer/privy_user_manager.go:16-89 | result, cache and requests sent for every hit, miss and failure; a failed call leaves the cache as it was |
| Signer.LookupMeans | enclave/privy-signer/privy_user_manager.go:16-187 | a lookup succeeds iff it hits, or the record is fetched and has a wallet or one is created and listed; what succeeds is cached and nothing else; the requests sent name this id, and are only those needed |
| Signer.LookupErrors | enclave/privy-signer/privy_user_manager.go:25-186 | the error of a failed lookup: that of the exchange that failed, or 500 if no wallet is listed |
| Signer.ReplyErrors | enclave/privy-signer/privy_client.go:67-114 | status and message that a failed exchange with Privy gives the caller |
| Signer.UrlParts | enclave/privy-signer/privy_api_paths.go:7-15 | the three addresses are the base followed by named parts, the id among them, joined with slashes |
| Signer.UrlSplits | enclave/privy-signer/privy_api_paths.go:7-15 | an id without a slash is one of the parts the path splits into |
| Signer.UrlsDistinct | enclave/privy-signer/privy_api_paths.go:7-15 | two ids have the same address iff they are the same |
| Signer.PrivyClient.ExecutePrivySigningRequest | enclave/privy-signer/privy_signing_manager.go:59-112 | one RPC for the wallet found, or none and the matching error |
| Signer.SignsExactly | enclave/privy-signer/privy_signing_manager.go:59-112 | a signing call has an RPC sent iff it is admitted, its user is found with a wallet, and the request can be built and authorized; it is answered with the signature Privy returns for it, and else with the error of the step that failed |
| Signer.CannotSign | enclave/privy-signer/privy_signing_manager.go:66-81 | 400 without a usable wallet, 500 if the request cannot be made or authorized |
| Signer.PrivyClient.HandleUserSign | enclave/router/eth_handlers.go:14-57 | checks in the code's order, then the pipeline; response, cache and requests sent are those of `ServeSpec` |
| Signer.PrivyClient.HandleAxalSign | enclave/router/eth_handlers.go:60-96 | the same for the HMAC handler, whose user is the one named in the body |
| Signer.PrivyClient.HandleGetUser | enclave/router/user_handler.go:12-37 | the same for the lookup handler, which sends no RPC |
| Signer.LookupAnswered | enclave/router/user_handler.go:12-37 | a lookup is answered with its user iff it is admitted and succeeds, and else with the error of the step that failed |
| Signer.UserAdmitted | enclave/privy-signer/privy_auth_manager.go:10-23 | a user's call is admitted for an id iff its header is a token for that id and its request, if it signs, is valid |
| Signer.RefusalStatus | enclave/router/eth_handlers.go:14-96 | 400 for a call with a header but no valid request, 401 otherwise, with the message of each case |
| Signer.BackendIdUnchecked | enclave/privy-signer/privy_auth_manager.go:26-42 | a backend call is admitted iff its request is valid and the header is the HMAC of the hash; the id it acts for is whatever non-empty id the body names |
| Signer.BackendIdsAlike | enclave/privy-signer/auth/hmac.go:17-20 | one header admits the same hash for any two non-empty ids or for neither |
| Signer.BackendHashes | enclave/privy-signer/auth/hmac.go:9-20 | a header accepted for one hash is accepted for another iff their HMACs agree |
| Text.HexReads | enclave/privy-signer/auth/hmac.go:14 | hexadecimal text is lower-case digits that, read in pairs with the high half first, give the bytes back |
| Text.HexInjective | enclave/privy-signer/auth/hmac.go:14 | two byte strings have the same hexadecimal text iff they are the same |
| Signer.UninterruptedCall | enclave/privy-signer/privy_signing_manager.go:59-112 | a call that nothing interrupts ends, in the step machine, with the response, cache and RPCs of the handler methods |
| Signer.SigningTraceSafety | enclave/router/eth_handlers.go:14-96 | in every run each RPC comes from exactly one handler call that passed validation and its own authentication, carries that call's body and a signature over body, method and URL, and is addressed, by a path that names it, to the first delegated ethereum wallet of a user obtained for the authenticated id |
| Signer.CachedUsersHaveWallets | enclave/privy-signer/privy_user_manager.go:80-86 | in every run each cached user has a delegated ethereum wallet and was fetched for its key, extended at most by a wallet that a create response listed |
| Signer.CacheChanges | enclave/privy-signer/privy_user_manager.go:86 | a cache entry changes only by being dropped or by a call for its id that succeeded |
| Signer.CacheLoses | enclave/privy-signer/privy_client.go:42-45 | an entry can be dropped at any time, and leaves the cache in no other way |
| Signer.ProvisionedIsCurrent | enclave/privy-signer/privy_user_manager.go:173-179 | the wallet appended from a full record is the one that record leads to |
| Signer.SequentialRefines | enclave/privy-signer/privy_user_manager.go:16-89 | if an id's record changes only by these create requests and answers show it, and calls for the id do not overlap, then in every reachable state the cached wallet, and that of every RPC ever sent, is the one an uncached fetch would lead to now, whatever record a create request leaves |
| Signer.CacheRefinesRecord | enclave/privy-signer/privy_user_manager.go:16-89 | the same for calls overlapping in any way, with a Privy that, once creation has led to a wallet, does not let further creation lead to another |
| Signer.RefinementExactly | enclave/privy-signer/privy_user_manager.go:16-89 | that condition on Privy is exact: the cache refines the record in every run iff Privy meets it |
| Signer.PlacementMatters | enclave/privy-signer/privy_user_manager.go:173-179 | new accounts appended to the record meet it; put at its front they do not |
| Signer.WalletsBoundedByOverlap | enclave/privy-signer/privy_user_manager.go:92-187 | however often entries are dropped, if create requests never take an id's last wallet away, at most as many of them add a wallet as calls for the id were about to create at one time |
| Signer.ProvisionedAtMostOnce | enclave/privy-signer/privy_user_manager.go:16-187 | if calls for an id do not overlap, at most one create request for it adds a wallet, whatever record a create request leaves |
| Signer.OverlapProvisions | enclave/privy-signer/privy_user_manager.go:16-187 | the bound is reached: for every k, in some run in which at most k calls overlap exactly k create requests add a wallet for an id that needs one |
| Signer.WalletsExactlyOverlap | enclave/privy-signer/privy_user_manager.go:16-187 | with an overlap of at most k, never more than n create requests add a wallet for an id iff k <= n, or the id has a wallet to begin with, or no call is admitted for it |
| BigInts.Copy | enclave/privy-signer/data/big_int.go:121-126 | same value in fresh storage |
| BigInts.Add | enclave/privy-signer/data/big_int.go:129-142 | the sum with nil read as zero, in fresh storage, operands unchanged |
| BigInts.Sub | enclave/privy-signer/data/big_int.go:145-158 | the difference, likewise |
| BigInts.Mul | enclave/privy-signer/data/big_int.go:161-168 | the product, likewise |
| BigInts.Cmp | enclave/privy-signer/data/big_int.go:171-182 | -1, 0, 1 iff less, equal, greater, nil read as zero |
| BigInts.Int64 | enclave/privy-signer/data/big_int.go:190-198 | the value and true iff it fits |
| BigInts.Uint64 | enclave/privy-signer/data/big_int.go:201-209 | the value and true iff it fits |
| BigInts.MarshalJson | enclave/privy-signer/data/big_int.go:54-60 | null for nil, and else a JSON integer in quotes that reads back as the value |
| BigInts.UnmarshalJson | enclave/privy-signer/data/big_int.go:63-100 | accepts exactly what `UnmarshalText` accepts and stores its value in the existing number, or in a fresh one for null and for a missing number |
| BigInts.SetStringDecimal | enclave/privy-signer/data/big_int.go:59-82 | reading back the decimal text of any integer gives that integer, and the text is an integer of the JSON grammar (section 6 of RFC 8259): no leading zero, at least one digit |
| BigInts.SetStringAccepts | enclave/privy-signer/data/big_int.go:78-95 | text is accepted iff it is at least one decimal digit after at most one sign |
| BigInts.SetStringSigns | enclave/privy-signer/data/big_int.go:78-95 | a plus sign and leading zeros do not change the value, a minus sign negates it |
| BigInts.TrimQuotesMeans | enclave/privy-signer/data/big_int.go:94 | exactly the quotes at both ends are removed |
| BigInts.JsonRoundTrip | enclave/privy-signer/data/big_int.go:54-100 | with any decoder that reads integers of the JSON grammar as numbers and, quoted, as strings: every integer survives marshal and unmarshal, nil comes back as zero, and the number form decodes to the same value |
| BigInts.DecoderExists | enclave/privy-signer/data/big_int.go:77-91 | that assumption about the decoder can be met |
| KeyBuffers.SecureZero | enclave/privy-signer/authorization_signature/signing.go:55-65 | every byte is zero afterwards |
| KeyBuffers.Vault.ParsePrivateKey | enclave/privy-signer/authorization_signature/signing.go:68-113 | the parsed key or error, with all three buffers wiped and destroyed on every path |
| KeyBuffers.SignPayload | enclave/privy-signer/authorization_signature/signing.go:116-151 | the base64 of the signature from before its wipe, or the error; no buffer left, every buffer and temporary array wiped, caller's arrays unchanged |
| KeyBuffers.VerifySignature | enclave/privy-signer/authorization_signature/signing.go:154-188 | the verdict or the decoding error, with the same discipline |
| KeyBuffers.VerifyAcceptsSigned | enclave/privy-signer/authorization_signature/signing.go:116-188 | if base64 decodes what it encodes and the public key verifies what the key signs, what was signed is accepted |
| KeyBuffers.VerifyRejectsOthers | enclave/privy-signer/authorization_signature/signing.go:116-188 | if the public key accepts a signature for no other hash, then what was signed for one payload is accepted for another iff they have the same hash |
| KeyBuffers.SignSucceeds | enclave/privy-signer/authorization_signature/signing.go:93-143 | for a key without a prefix: which of decoding, parsing and signing failed, if any |
| KeyBuffers.PrefixOptional | enclave/privy-signer/authorization_signature/signing.go:74-82 | a key signs the same with and without the bytes that spell "wallet-auth:" in front |
| KeyBuffers.SecureCompare | enclave/privy-signer/authorization_signature/signing.go:191-202 | true iff the two byte sequences are equal |

## Left out

- SHA-256, HMAC, ECDSA, X.509, base64, JWT parsing and JSON: library code, uninterpreted functions; what a lemma needs of them is in its `requires`.
- The internals of the cache, the web framework, TLS, HTTP and locked memory are not part of this model; cache expiry and eviction are arbitrary drop steps, and a dropped entry is simply gone.
- Real system calls, the poller, time and randomness: arbitrary results. Nothing is claimed about what wakes a blocked call.
- A `Close` during a running socket operation shows only through the errors the poller and the system calls then return.
- Sockets.Conn.Run: one method for `read` and `write`, whose bodies differ only in the poller called.
- Sockets.WriteReturnsNil: assumes that write(2) returns a negative count exactly when it fails; without that only `WriteProgress` holds. `WriteComplete`, `WriteCounts` and `WriteFails` assume the same.
- Sockets.OperateReturnsNil: a closure that returns a context error of its own on a live context, which none of this package does, is not modelled.
- Transport.Network.Dial: the handshake is taken to have ended, because `dial` waits for it without a deadline.
- Transport.Network.RoundTrip: one method for the HTTPS and the HTTP transport; the messages that wrap its errors are not modelled.
- KeyBuffers.SignPayload: the parsed private key, which the code leaves to the garbage collector unwiped, is not an array of this model; nothing is claimed about it.
- Proxy: the accept loops, and connections whose onward dial fails, which the code leaves open. A pump is a step machine, because its loop is inside `io.Copy`.
- Signer.SequentialRefines: records change through create requests of this process alone; users and operators who change them at Privy are not modelled.
- Signer.SigningTraceSafety: the authorization signature is a function of body, method and URL; that ECDSA is randomised plays no part in it.
- CanonicalRequest.CollectHeaders: trimming and lower-casing are those of ASCII text, where strings have one character per byte.
- `sort.Strings` is a function, not an in-place algorithm; only its result matters.
- Full AWS Signature Version 4: the code neither sorts the query nor collapses inner spaces, and the model follows it.
- `NewBigInt`, `FileConn`, descriptor creation, the other socket calls, batch and transaction validation rules, credentials, configuration, attestation and logging: easy members, I/O or constant tables.
