# yggmine-native control layer, modelled in Dafny

yggmine-native is a C-callable library, written in Go, that embeds an Yggdrasil node in a host program.
This project models the control layer in `main.go` and proves properties of that model. The layer has three parts:

- **Lifecycle** (`Lifecycle.dfy`). The process-wide `ygg` record holds a core, a netstack built on the core, and a SOCKS5 listener.
  - The exported entry points `Init`, `Shutdown`, `StartSocks5Proxy` and `StopSocks5Proxy` change the record.
  - The synchronous part of `CreateProxyServerTCP` reads it: the netstack guard, then the relay listener.
  - Each entry point is a pure function from the record, plus the outcomes of its collaborators, to a return code and the next record.
  - Collaborators such as configuration parsing, `core.New`, the netstack and `net.Listen` are not modelled. Their outcomes are inputs. A failed collaborator is taken to return nil.
- **Host** (`Host.dfy`). A host makes a sequence of such calls. Lemmas state what holds along every such sequence:
  - repeated `Shutdown` calls act like one call;
  - a core survives every call except `Shutdown`;
  - a SOCKS5 listener, once opened, is never dropped.
- **Marshal** (`Marshal.dfy`). `copyStrToBuf` copies a Go string into a host-owned buffer of declared length `bufLen`. It writes at most `bufLen - 1` bytes, then a 0 terminator.
  - The model states which bytes of the buffer change.
  - It proves what a C reader of the buffer then sees.
  - It includes a loop version on an array, proved equal to the functional version.
- **Pump** (`Pump.dfy`). `tcpProxyFunc` is one direction of a relay session. It repeatedly reads up to `mtu` bytes from one connection and writes them to the other, until a read or a write fails.
  - The connections are replaced by the scripted results of their `Read` and `Write` calls.
  - The method returns the buffers it passed to `Write`, the number of reads it made, and how it stopped.
  - The proofs state that the writes carry exactly the payload bytes, in order, and that the loop stops on the first error.

Bytes are `bv8`. C integers are Dafny `int`: the return codes are small constants, and ports lie in 1..65535.

### Behaviour of the code that the model keeps

- Return codes are plain integers:
  - `Init` returns 0 on success and -1 to -5 on failure.
  - `CreateProxyServerTCP` returns the port on success, and -1 or -2 on failure.
- Every `Init` call first creates the package logger if it is still nil (main.go:37-39). This happens even when the call then fails.
  - The model records this as the `logger` flag of the state.
- `StartSocks5Proxy` with a listener present returns 0. It does not signal "already started" in any other way.
  - Before any `Init`, its log message in that branch goes through the nil logger, which panics and ends the process (`Lifecycle.StartTwiceBeforeInit`).
- When `net.Listen` fails, `StartSocks5Proxy` ends the process through `logger.Fatalln`. The call does not return.
- `StartSocks5Proxy` has no instance guard: it starts even before `Init` (`Lifecycle.StartWithoutInstance`).
- `StopSocks5Proxy` returns nothing and ignores the error from `Close`.
  - It also never clears the listener reference.
  - So after a stop, every later `StartSocks5Proxy` returns 0 and opens nothing (`Lifecycle.StartAfterStop`).
- `Shutdown` only sets the core and netstack references to nil. It never stops the core, so the old core keeps running after `Shutdown` and after a later `Init`.
- `CreateProxyServerTCP` logs through the logger on its -2 path. That never meets a nil logger: a netstack exists only after `Init`, which creates the logger first.
- When the netstack fails, `Init` returns -5 but leaves the new core in the record.
  - After that, a second `Init` is refused with -2.
  - `CreateProxyServerTCP` still returns -1 (`Lifecycle.InitNetstackFailure`).

## Model

| member | source | states |
|---|---|---|
| Marshal.CopiedLength | main.go:190-192 | the number of message bytes kept is min(length, bufLen - 1), always below bufLen, and equals the whole length exactly when the message is shorter than bufLen |
| Marshal.CopyStrToBuf | main.go:187-196 | for a kept length below the 1 << 30 array view, the buffer keeps its size; its first min(length, bufLen - 1) bytes are the message's, the next byte is 0, and every later byte, in particular every byte at or past bufLen, is unchanged |
| Marshal.ReadTerminatedPrefix | main.go:194-195 | memory that holds a message prefix followed by 0 reads back as that prefix, cut at the message's own first 0 byte |
| Marshal.ReadBack | main.go:187-196 | after the copy a C reader finds the terminator inside the declared length and reads the message, cut at the bound or at its first 0 byte |
| Marshal.ReadBackWhole | main.go:187-196 | a message without 0 bytes that is shorter than bufLen reads back whole |
| Marshal.CopyStrToArray | main.go:187-196 | the byte-by-byte copy on an array returns the number of copied bytes and leaves the array equal to the functional copy |
| Lifecycle.Init | main.go:33-76 | the code is one of 0, -1 … -5; the logger exists afterwards, whatever the code; 0 exactly when there was no core before and there are a core and a netstack after; every failure except -5 leaves the record as it was, apart from the logger; -5 leaves the new core without a netstack; the SOCKS5 listener is untouched; a netstack never exists without a core, nor a core without the logger |
| Lifecycle.Shutdown | main.go:78-86 | afterwards the record holds neither core nor netstack (the core is forgotten, not stopped); the SOCKS5 listener and the logger are untouched |
| Lifecycle.StartSocks5Proxy | main.go:93-120 | an existing listener gives 0 and no change once the logger exists; the process ends exactly when there is a listener but no logger (the nil-logger panic) or no listener and listening fails; otherwise the answer is the new port and a new open listener on that port is recorded; core, netstack and logger are untouched |
| Lifecycle.StopSocks5Proxy | main.go:122-127 | core, netstack and logger are untouched; the listener reference is kept, with the same port, and is closed |
| Lifecycle.CreateProxyServerTCP | main.go:143-185 | the record is unchanged; -1 exactly when there is no netstack; -2 exactly when there is one and listening fails; a positive answer exactly when both succeed, and it is the listening port |
| Lifecycle.InitNilConfig | main.go:41-43 | a NULL configuration gives -1, whatever the state, and changes nothing but creating the logger |
| Lifecycle.InitTwice | main.go:45-47 | with a core present, Init gives -2 and changes nothing but the logger |
| Lifecycle.InitParseFailure | main.go:52-54 | an unparsable configuration gives -3 and changes nothing but the logger |
| Lifecycle.InitCoreFailure | main.go:65-67 | a failing core.New gives -4 and changes nothing but the logger |
| Lifecycle.InitNetstackFailure | main.go:70-73 | a failing netstack gives -5 but keeps the core, so the next Init gives -2 and the relay still gives -1 |
| Lifecycle.InitSuccess | main.go:49-75 | with no core, a parsable configuration and both collaborators succeeding, Init gives 0, records both handles and has created the logger |
| Lifecycle.ShutdownIdempotent | main.go:78-86 | two Shutdowns have the effect of one |
| Lifecycle.StartAfterStop | main.go:93-127 | after Stop, Start answers 0 and changes nothing once the logger exists, and ends the process before it does |
| Lifecycle.StartTwiceBeforeInit | main.go:29-39 | before any Init, a first Start opens a listener and a second one ends the process through the nil logger at main.go:96 |
| Lifecycle.StartWithoutInstance | main.go:93-120 | on the initial record, Start opens a listener and answers its port although there is no core or netstack |
| Host.Apply | main.go:33-185 | a void answer exactly for Shutdown and Stop; a process exit exactly for a Start that finds a listener but no logger, or no listener and fails to listen, and it changes nothing; a logger once created stays; the state invariant is kept |
| Host.Execute | main.go:33-185 | no answer but the last is a process exit, a run is cut short only by one, and the core/netstack invariant holds at the end |
| Host.StartTwiceBeforeInitExits | main.go:94-97 | a run that starts the proxy twice before any Init is cut short at the second Start, whatever follows |
| Host.ShutdownRepeated | main.go:78-86 | any non-empty run of Shutdown calls ends in the record one Shutdown gives and answers nothing each time |
| Host.CoreSurvivesWithoutShutdown | main.go:45-47 | in a run without Shutdown, a core present at the start is the core at the end, and every Init in between answers -1 or -2 |
| Host.ListenerIsPermanent | main.go:94-97 | once a listener and the logger exist, every call of a run is answered, the listener and its port stay, and every Start answers 0 |
| Pump.Chunks | main.go:204-209 | there are never more writes than reads |
| Pump.ChunksStep | main.go:204-209 | a read with an empty payload adds no write; a read with a non-empty payload adds exactly one write, of that payload |
| Pump.ChunksCarryReceived | main.go:200-209 | the writes, concatenated, are exactly the payload bytes of the reads, in order |
| Pump.ChunksFit | main.go:198-200 | every write is non-empty and, when each read fits the buffer, at most mtu bytes |
| Pump.TcpProxyFunc | main.go:197-211 | the loop stops in one of four ways: a read error, returned at once with its bytes dropped; a write error on the last buffer; blocked in a Read after all given reads succeeded; blocked in a Write. Every earlier read and write succeeded, the buffers written are the non-empty payloads in read order, and none exceeds mtu; a returned error is the error of the last read or of the last write |
| Pump.KeepGoing | main.go:200-209 | a successful read whose payload, if any, is written successfully keeps the loop invariant, with the payload appended |
| Pump.StopOnReadError | main.go:201-203 | a failing read ends the loop with its error and nothing new written |
| Pump.StopOnWriteError | main.go:204-208 | a failing write ends the loop with its error after that buffer was issued |
| Pump.StopOnPendingWrite | main.go:204-205 | a write with no given result leaves the loop blocked in it, with one more buffer issued than results given |
| Pump.StopOnPendingRead | main.go:199-200 | after the last given read succeeded, the loop is blocked in the next Read |

## Left out

- The cgo marshalling of arguments. `C.GoString`, `C.CString` and `C.int` are left out. A configuration is a Dafny `string`, and codes are integers.
- The `(*[1 << 30]byte)` array view in `copyStrToBuf`. The buffer is modelled as a byte sequence, and the host must own at least `bufLen` bytes of it.
- Marshal.CopyStrToBuf requires `bufLen >= 1` and a kept length below 1 << 30 (`ArrayView`). These preconditions also apply to `CopyStrToArray`, `ReadBack` and `ReadBackWhole`. Outside them, the Go code panics, and that panic is not modelled:
  - With a smaller `bufLen`, it slices with a negative bound.
  - With a kept length of 1 << 30 or more, it indexes past the array view.
  - The only caller, `NewPrivateKey`, passes a short hex key.
- The package mutex, and calls from several host threads at once. Entry points are modelled as atomic steps.
  - `Shutdown`, `StartSocks5Proxy` and `StopSocks5Proxy` take no lock in the code. That race is therefore not represented.
- The goroutines: the SOCKS5 serve loop, the relay goroutine in `CreateProxyServerTCP` (main.go:158-183), and `ProxyTCP` with its two pumps and error channel (main.go:213-247).
  - Those goroutines run after their call has returned, and they keep no state in the record.
  - `tcpProxyFunc` alone is modelled, as one sequential loop.
- The external libraries: the Yggdrasil core, config and netstack, go-socks5, and the network. Their outcomes are inputs to the model.
  - A failure is assumed to yield a nil result, as Go convention has it.
- `GetAddress`, `FreeCString` and `NewPrivateKey`.
  - They wrap external calls (`core.Address`, `C.free`, key generation) and do not change the record.
  - `NewPrivateKey` is `copyStrToBuf` applied to a generated hex key, and Marshal covers it.
- Logging output. Only whether the logger exists is modelled; `logger.Fatalln`, and any synchronous log call through the still-nil logger, is modelled as the end of the process.
  - The SOCKS5 serve goroutine logs when it stops. If the proxy was started before any `Init`, that log call goes through the nil logger after `StopSocks5Proxy`. This is asynchronous, so it is not modelled.
- The commented-out PROXY protocol header code in `ProxyTCP`.
- Pump.TcpProxyFunc: a `Read` or `Write` whose scripted result is missing is modelled as the loop blocking there, because the Go loop would wait in that call. Short writes are excluded by the `io.Writer` contract, and a write is modelled as all-or-error.
- Lifecycle.CreateProxyServerTCP: the `address` argument is only read by the relay goroutine, so it has no effect in the model.
