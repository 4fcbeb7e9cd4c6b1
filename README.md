# anytls-go server: V2board admission and traffic accounting

A Dafny model of the part of the anytls-go server that decides who may use a
connection and what it charges to whom:

- **Traffic accounting** (`v2board/traffic.go`, module `Traffic`). The
  `TrafficManager` keeps one (upload, download) counter pair per V2board user
  id. `Record` adds the positive part of each amount and creates the counter
  on first use. A push samples every counter that has traffic, resets it to
  zero and hands the batch to the panel. When the panel refuses the batch,
  the amounts are added back, so no traffic is lost.
- **User directory** (`v2board/auth.go`, module `Auth`). The `AuthManager`
  keeps two tables: one keyed by SHA-256(UUID), one keyed by user id. A
  refresh rebuilds both from the panel's user list and installs them
  together; a fetch error leaves them as they were. `CheckAuth` refuses any
  fingerprint that is not 32 bytes long.
- **Server identity** (`cmd/server/myserver.go`, module `Server`). In plain
  mode the server compares the client's fingerprint byte by byte with the
  stored SHA-256 of the password and reports user 0. In V2board mode it asks
  the directory. Traffic is forwarded to the accountant only for a positive
  user id.
- **Connection admission** (`cmd/server/inbound_tcp.go`, module `Inbound`).
  The first packet is a 32-byte fingerprint, a 2-byte big-endian padding
  length, that much padding, then session data. A read error or a packet
  shorter than the fingerprint closes the connection. A refused fingerprint,
  or a length or padding that is cut short, hands the whole packet to the
  fallback. Otherwise the session starts with the bytes after the padding.
  `HandleFirstPacket` works step by step on a `PacketBuffer` with a read
  cursor and is proved equal to the declarative `Admit`. Each stream is
  routed to UDP-over-TCP when its destination text contains
  `udp-over-tcp.arpa`, and to TCP otherwise; its relay counts are then
  recorded for the session's user.
- **Startup** (`cmd/server/main.go`, module `Startup`). Startup picks the
  mode: V2board needs an API host, an API key and a non-zero node id.
  Without V2board, an empty password is fatal. In V2board mode the panel's
  node configuration can override the listen port and both intervals; an
  interval is overridden only when its flag still has the 60-second default.
  Startup then builds the server for the chosen mode.

The shared panel types (`User`, `TrafficRecord`, `NodeInfo`, `Digest`,
`Option`, `Result`) are in module `Panel`. Several things reach the model as
parameters:

- SHA-256 (`Hasher`);
- the panel's answers (`Result` values);
- the push sink (`seq<TrafficRecord> -> bool`);
- the relay's byte counts (`Route -> (nat, nat)`).

## Model

| member | source | states |
|---|---|---|
| Traffic.TrafficManager.constructor | v2board/traffic.go:29-34 | a new accountant has no counters |
| Traffic.TrafficManager.Record | v2board/traffic.go:40-65 | the counters become `Recorded` of the old ones; no counter goes negative |
| Traffic.RecordEffect | v2board/traffic.go:40-65 | non-positive amounts change nothing and create no counter; otherwise `id` has a counter, started at zero if absent, grown by exactly the positive amounts; every other counter is unchanged; no counter goes negative |
| Traffic.RecordCommutes | v2board/traffic.go:45-64 | two Record calls give the same counters in either order |
| Traffic.RecordedAllTotals | v2board/traffic.go:40-65 | from no counter, a run of connections creates one exactly when some amount is positive, holding the sums of the positive amounts; every other user keeps exactly the counter it had, or stays without one |
| Traffic.PositiveTotalOfNothing | v2board/traffic.go:41-43 | amounts that are all non-positive add up to zero |
| Traffic.TrafficManager.Push | v2board/traffic.go:81-120 | no sink call exactly when no counter has traffic; otherwise the batch lists each user with traffic once, with its amounts; delivery is reported exactly when the sink accepts; afterwards the counters are all zero on success, and on refusal they are as before the push |
| Traffic.TrafficManager.TakeAll | v2board/traffic.go:87-99 | every counter is swapped to zero; the records returned name distinct users and, read as a map, equal the counters with traffic |
| Traffic.TrafficManager.Restore | v2board/traffic.go:108-115 | each line's amounts are added back to its user's counter if the user still has one, and skipped otherwise |
| Traffic.PushAccounting | v2board/traffic.go:87-99 | draining keeps every user's counter, now at zero; only users with traffic are reported; the reported amount plus what is left equals what there was |
| Traffic.DrainedWhenIdle | v2board/traffic.go:101-103 | when no counter has traffic, draining leaves the counters unchanged, so an idle push is a no-op |
| Traffic.RestoredAll | v2board/traffic.go:105-116 | adding the sampled batch back onto the drained counters gives exactly the counters before the push |
| Traffic.AddedBackPointwise | v2board/traffic.go:109-114 | adding a batch back keeps the set of users; each user in the batch gains its amounts, and every other user is unchanged |
| Traffic.BatchOfKeys | v2board/traffic.go:91-96 | the users of a batch are exactly the ids on its lines |
| Traffic.BatchOfAt | v2board/traffic.go:91-96 | when ids are distinct, each line's amounts are what the batch holds for that user |
| Traffic.BatchOfAppend | v2board/traffic.go:92-96 | appending a line adds that line's user and amounts to the batch |
| Traffic.RetryAfterFailedPush | v2board/traffic.go:105-116 | a refused batch of (100, 50) for user 7, followed by a Record of (10, 0), makes the next accepted push report (110, 50) for user 7 and no one else |
| Auth.AuthManager.constructor | v2board/auth.go:31-37 | both tables start empty, so no fingerprint authenticates and no id resolves |
| Auth.AuthManager.Refresh | v2board/auth.go:60-87 | on a fetch error, the error is wrapped and both tables are kept; on a user list, both tables are replaced by the indexes of that list, and each entry is filed under its own hash and id |
| Auth.AuthManager.CheckAuth | v2board/auth.go:92-108 | a fingerprint of any length other than 32 is refused; a 32-byte fingerprint is accepted exactly when the table holds it, with that user's id; a refusal reports id 0 |
| Auth.AuthManager.GetUserById | v2board/auth.go:111-121 | a user is found exactly when the id table holds the id, and it is the user filed there |
| Auth.AuthManager.UserCount | v2board/auth.go:124-128 | the number of fingerprints; zero exactly when no fingerprint authenticates |
| Auth.IndexConsistent | v2board/auth.go:69-78 | tables built from any list file each entry under the hash of its UUID and under its own id |
| Auth.IndexByHashKeys | v2board/auth.go:69-78 | the fingerprint table holds exactly the SHA-256 of each listed UUID |
| Auth.IndexByIdKeys | v2board/auth.go:69-78 | the id table holds exactly the listed ids |
| Auth.IndexByHashLastWins | v2board/auth.go:69-78 | on a shared UUID hash, the last listed user is the one filed |
| Auth.IndexByIdLastWins | v2board/auth.go:69-78 | on a shared id, the last listed user is the one filed |
| Auth.IndexByHashSize | v2board/auth.go:67-78 | the directory never holds more fingerprints than the list had users |
| Auth.AcceptedIsUuidHash | v2board/auth.go:92-108 | in any state built by the constructor and refreshes, an accepted fingerprint is the SHA-256 of the UUID of the user filed under it, and the reported id is that user's |
| Auth.CheckAuthAfterRefresh | v2board/auth.go:60-108 | after a refresh from a list, a fingerprint is accepted exactly when it is the SHA-256 of some listed UUID, and then it gives the id of the last user listed with that hash |
| Server.MyServer.Plain | cmd/server/myserver.go:23-28 | plain mode: the stored hash, with no directory and no accountant |
| Server.MyServer.V2board | cmd/server/myserver.go:31-37 | V2board mode: the given directory and accountant, with no stored hash |
| Server.MyServer.Authenticate | cmd/server/myserver.go:41-60 | with a directory, exactly CheckAuth's answer; in plain mode, acceptance exactly when the input equals the stored hash, with user 0 either way, and no byte compared on a length mismatch |
| Server.MyServer.RecordTraffic | cmd/server/myserver.go:63-67 | with an accountant and a positive user id, the counters become `Recorded` of the old ones; otherwise nothing changes |
| Inbound.PacketBuffer.constructor | cmd/server/inbound_tcp.go:33-36 | the buffer holds the first read with the cursor at its start |
| Inbound.PacketBuffer.ReadBytes | cmd/server/inbound_tcp.go:44-58 | the next `n` bytes, advancing the cursor; with fewer left, an error and the cursor unmoved |
| Inbound.PacketBuffer.Rewind | cmd/server/inbound_tcp.go:104 | after the resize, the whole packet is unread again |
| Inbound.BigEndian16 | cmd/server/inbound_tcp.go:56 | a two-byte padding length is below 65536 |
| Inbound.BigEndianBytes | cmd/server/inbound_tcp.go:56 | the two bytes a client writes for a length decode back to that length |
| Inbound.IsValidAuth | cmd/server/inbound_tcp.go:100-109 | the answer is authenticate's verdict; on refusal the buffer is rewound to the whole packet, and on acceptance the cursor stays where it was |
| Inbound.HandleFirstPacket | cmd/server/inbound_tcp.go:36-66 | a failed read closes the connection; otherwise the outcome is `Admit` of the packet (closed if too short for a fingerprint, fallback with the whole packet on refusal or truncation, otherwise admitted with the user id and the bytes after the padding) |
| Inbound.AdmitEncoded | cmd/server/inbound_tcp.go:44-66 | an accepted fingerprint, a length, that much padding and session data round-trip to admission with authenticate's user id and exactly the session data |
| Inbound.RejectionReadsNoFurther | cmd/server/inbound_tcp.go:44-47 | with a refused fingerprint, the bytes after it never matter: the connection falls back with the whole packet |
| Inbound.AdmittedShape | cmd/server/inbound_tcp.go:50-66 | an admitted packet is the fingerprint, the length, padding of that length and the replayed rest, and the user id is authenticate's id for the fingerprint |
| Inbound.PlainModeAdmits | cmd/server/inbound_tcp.go:44-66 | in plain mode, a packet that starts with SHA-256 of the password and a zero padding length admits user 0 and replays everything after the length intact |
| Inbound.EmptyDirectoryRejects | cmd/server/inbound_tcp.go:44-47 | in V2board mode before any successful refresh, every packet that carries a fingerprint falls back |
| Inbound.Contains | cmd/server/inbound_tcp.go:85 | true exactly when the marker occurs at some index of the destination text |
| Inbound.RouteFor | cmd/server/inbound_tcp.go:85-89 | UDP-over-TCP exactly when the destination text contains `udp-over-tcp.arpa` |
| Inbound.ServeStream | cmd/server/inbound_tcp.go:78-92 | a destination that does not parse ends the stream with no report; otherwise the stream takes its route, and that route's relay counts are recorded once for the user through RecordTraffic |
| Startup.Digit | cmd/server/main.go:143-146 | the decimal digit character for a value below 10 |
| Startup.FormatUint | cmd/server/main.go:143-146 | non-empty, all decimal digits, no leading zero |
| Startup.FormatUintRoundTrip | cmd/server/main.go:143-146 | reading the decimal text back gives the number |
| Startup.ResolveConfig | cmd/server/main.go:61-96 | startup fails exactly when V2board mode is off and the password is empty. The mode is V2board exactly when host, key and a non-zero node id are all given; plain mode stores SHA-256 of the password (line 129). Flag values are kept unless V2board mode is on and the node info was fetched. Then a positive port becomes `:port`, and an interval still at the 60-second default is replaced by a positive panel value in seconds |
| Startup.NewServer | cmd/server/main.go:117-131 | V2board mode gets a new, empty directory and accountant, and no stored hash; plain mode gets only the stored hash |

## Left out

- The `Start` loops of both managers (tickers, goroutines and logging): each refresh and each push is modelled as one call. The comment at v2board/auth.go:39 says the directory refreshes immediately, and the code does. The comment at v2board/traffic.go:67 also says the accountant pushes immediately, but the code waits one interval.
- Locks and atomic integers: every call is one atomic step. Because of this, the model does not capture that a Record running between a push's sampling and its restore is kept, nor the race at cmd/server/inbound_tcp.go:66, where the user id is looked up again after a refresh may have happened.
- int64 overflow of the counters and of `time.Duration`: integers are unbounded.
- Counters are held by value in a map, not as shared pointers into it. A counter a concurrent Record still holds therefore cannot be observed.
- SHA-256 is a function parameter that returns 32 bytes; its internals are not modelled.
- The panel's HTTP/JSON client (v2board/api.go): its answers enter as `Result` values, and the push's answer enters as the sink's boolean.
- Auth.AuthManager.Refresh: the wrapped error message is the English `fetch user list: ` in place of the source's own prefix.
- The TLS handshake, the session layer, the padding scheme and SocksAddr decoding: a stream's destination enters as its text form, or `None` when it does not parse.
- The relays (UDP-over-TCP and TCP outbound): their byte counts enter as a function of the route.
- The panic recovery, the stream close and the `fallback` stub (which only logs; the handler then returns and its deferred close ends the connection): fallback is an outcome carrying the bytes it would replay.
- Flag parsing, the padding-scheme file, the listener, the certificate and the accept loop in cmd/server/main.go. The fatal exits are an `Err` result.
- Startup.ResolveConfig: the node-id check at cmd/server/main.go:66-68 can never fire, because the mode already requires a non-zero id. The model proves this with an assertion and has no branch for it.
- The comment at v2board/traffic.go:83-84 says a refused batch is dropped, but the code at lines 105-116 adds it back. The model follows the code.
