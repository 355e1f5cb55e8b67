# A verified model of the ShadowVPN iOS data plane

ShadowVPN's packet-tunnel extension sends the networks of a chosen country around the tunnel and
everything else through it. Four parts of it carry non-trivial promises, and this project models
each of them in Dafny and proves the promises for all inputs, all runs and all interleavings:

1. **The bypass-route compiler.** `country.rs` turns a bag of database networks into a text file of
   CIDR blocks (prefix notation as in section 3.1 of RFC 4632); `SVTunnelSettings.m` parses the text
   into address/mask routes, as it does the file that the host tool `chnroute-gen` writes. Modules
   `Bits`, `Cidrs`, `RangeMerge`, `RangeSplit`, `ChnrouteGen`, `BypassCidrs`, `DottedText`,
   `CountryText`, `CountryCache`, `PowerLoss`, `TunnelSettings`, `BundledFile`, `SupernetWalk`.
2. **The tunnel life cycle.** `engine.rs`, `SVTunnelEngine.m` and `PacketTunnelProvider.m` as step
   systems: control-queue operations, session tasks, aborts and joins, a bounded queue, delayed
   blocks. Modules `Runs`, `WriterContext`, `ReadChain`, `PacketFlow`,
   `TunnelEngine`, `IngestQueue`, `DataPlane`, `Debounce`, `PathUpdates`, `TunnelStarts`,
   `TunnelProvider`.
3. **The DNS packet layer.** `dns_intercept.rs`: one's-complement checksums (section 1 of RFC 1071,
   RFC 768), the packet builder and parser on all fields of a packet (section 3.1 of RFC 791), the
   pending map shared by two tasks, and the socket shared by all domestic queries. Modules
   `InternetChecksum`, `DnsPacket`, `PacketFields`, `DnsInterception`, `DirectSocket`.
4. **The wire codecs.** `obfs.rs` (Base64, section 4 of RFC 4648, and QUIC-shaped headers) and the
   TLS server-name walk of `inspect.rs` (section 4.1.2 of RFC 8446, section 3 of RFC 6066). Modules
   `Base64`, `Obfuscation`, `TlsSni`.

## How it is built

Loops of the source are methods with loop invariants, proved equal to a specification function;
the properties are lemmas about that function. Objects the source updates in place
(`DnsInterceptor`, `QuicObfs`, `SVTunnelEngine`, `PacketTunnelProvider`, `Engine`,
`CacheDirectory`) are classes. A protocol is a `State`, a `Step` on one atomic event, and `Run` over
any list of events; an event that is not enabled changes nothing, so that a claim about every list
is a claim about every interleaving. All of those classes but `QuicObfs` keep a ghost history: their
fields are always those of the run of steps their calls amount to, so that what is proved of runs
holds of the objects. Where a property holds only under a condition on the deployment, the
condition is a field of `Config` and the theorem is an equivalence, one half of it by an explicit
run of the code as written.

## Where the code and its documentation disagree

- The comment of the host tool's splitter promises minimal blocks; on the whole address space it
  emits two blocks where one suffices, and only there (`SplittersAgree`, `GenMinimalUnlessWhole`).
- The route parser is said to log and skip malformed lines; it reads any text after the slash as the
  number it begins with, or 0, and 0 excludes every address; and it does not see text behind a NUL
  in the address (`SkipPromiseIff`, `ExcludesAllIff`, `BrokenTails`, `BrokenAddress`).
- The supernet walk is said to tile 10.0.0.0/8 without the tunnel's /30; it tiles the /8 of whatever
  address it is given (`TenExcludedIffInside`).
- The reply handler means to recognize packets from the resolver but reuses the query parser, which
  looks at the destination; a reply to a client port other than 53 is never consumed, and one keyed
  on the source would be (`RepliesRecognized`).
- The packet parser is said to clamp the UDP length to the buffer; a length past the end is rejected
  instead (`ClampedIff`, `CutQueryDropped`).
- A domestic answer is said to displace the tunneled one; a reply that is consumed before it gives a
  second answer. With the recognizer as written that takes a packet addressed to the resolver; on
  resolver replies to ordinary ports it happens only with a recognizer keyed on the source
  (`BothAnswersIff`, `BothAnswersByRecognizer`).
- The blocking stop is said to rule out callbacks after release because egress alone calls back;
  with the interceptor ingress does too, and a join may time out (`WriterSafeIff`, `OneEgressIff`).
- The epoch check is said to keep an old read handler from ingesting or re-arming; it does so for
  handlers that run at once, not for one that is past its checks when the stop happens, and a
  stopped engine may even be left with a read of its new epoch (`OneChainIff`, `NoStaleUseIff`,
  `StoppedQuietIff`). It keeps a superseded read from being used, not from being outstanding:
  a stop leaves its read on the flow, beside that of the next tunnel's engine, and at most one is
  there only on a flow that is started on once (`OneOnFlowIff`, `OnFlowAtMost`).
- A restart does not wait for the old ingress task, so that packets of two sessions may leave out of
  order; calls to `ingest` that overlap, as such a handler makes possible, may even cross within
  one (`GlobalOrderIff`, `CallOrderIff`).
- A canceled path monitor is said not to schedule restarts for a later tunnel; an update that has
  passed its check when the tunnel is switched does. A start takes no generation either, so that a
  wake before it, or a report after a failed restart, restarts the new tunnel too (`OwnTunnelIff`).
  A start carried out is safe from both exactly when a stop is behind it on the queue, or no update
  is past its check and no block of the current generation waits (`AsWrittenStartIsSafeIff`).
- The direct query is said to return the reply to the query; it returns the next datagram on a
  socket shared by all queries, and one late reply can put every later answer off by one
  (`OwnAnswersIff`, `QueryOwnIff`, `ShiftPersists`).
- The cache name is said to rule out stale files after an update; it does exactly when no two
  releases of one length differ on a country (`FreshIff`).
- The cache file is said to be written atomically; a process that dies leaves no short file, but a loss
  of power may, since the text is not forced to storage before the rename, and later calls hand a
  short file out (`WholeIff`, `ShortFileServed`).
- Base64 decoding is said to reject any byte outside the alphabet; bytes after the first padding
  character are not looked at (`RejectedIff`, `PaddingHidesForeign`).

## Model

| member | source | states |
|---|---|---|
| RangeMerge.MergeRanges | core/rust/shadowvpn-ios-ffi/src/country.rs:118-129 | The merge loop, with its saturating successor at the last address, computes the fold whose meaning the next rows give |
| RangeMerge.MergedSpec | core/rust/shadowvpn-ios-ffi/src/country.rs:116-129 | Sorting and merging any bag of ranges keeps exactly its addresses and leaves sorted ranges with at least one missing address between neighbours |
| RangeMerge.CanonicalUnique | core/rust/shadowvpn-ios-ffi/src/country.rs:116-129 | Two such lists with the same addresses are equal |
| RangeMerge.MergeDependsOnAddresses | core/rust/chnroute-gen/src/main.rs:45-58 | Two bags merge to the same list if and only if they hold the same addresses |
| RangeSplit.RangeToCidrs | core/rust/shadowvpn-ios-ffi/src/country.rs:147-163 | The loop terminates without wrapping at 2^32 for every start at most end, and emits the greedy split |
| RangeSplit.SplitShape | core/rust/shadowvpn-ios-ffi/src/country.rs:147-163 | All blocks are aligned, in increasing order without overlap, and inside the range |
| RangeSplit.SplitCovers | core/rust/shadowvpn-ios-ffi/src/country.rs:144-163 | An address is in a block of the split if and only if it is in the range |
| RangeSplit.SplitEscapes | core/rust/shadowvpn-ios-ffi/src/country.rs:144-146 | The parent of every emitted block reaches outside the range: each step takes the largest block possible |
| RangeSplit.SplitUnimodal | core/rust/shadowvpn-ios-ffi/src/country.rs:148-162 | There is a switch before which alignment decides every block size and from which on the span does; sizes rise strictly up to it and fall strictly after it, with at most one repeat there |
| RangeSplit.SplitAtMost62 | core/rust/shadowvpn-ios-ffi/src/country.rs:147-163 | No 32-bit range needs more than 62 blocks |
| RangeSplit.SixtyTwoReached | core/rust/shadowvpn-ios-ffi/src/country.rs:147-163 | The bound is reached by 0.0.0.1 to 255.255.255.254 |
| ChnrouteGen.RangeToCidrs32 | core/rust/chnroute-gen/src/main.rs:78-92 | The 32-bit loop with saturating span, checked shift and checked add terminates on every pair of addresses and emits its own split |
| ChnrouteGen.SplittersAgree | core/rust/chnroute-gen/src/main.rs:76-92 | The two splitters emit the same list if and only if the range is not the whole address space |
| ChnrouteGen.WholeSpaceSplit | core/rust/shadowvpn-ios-ffi/src/country.rs:149-155 | On the whole space the 64-bit splitter emits the one block of length 0 |
| ChnrouteGen.SplitGenCovers | core/rust/chnroute-gen/src/main.rs:78-92 | The 32-bit splitter covers exactly its range, the whole space and the empty range included |
| Cidrs.MaximalIsShortest | core/rust/shadowvpn-ios-ffi/src/country.rs:144-146 | Disjoint blocks none of which can grow inside their union are no more than any list of aligned blocks with that union |
| Cidrs.ShortestIsUnique | core/rust/shadowvpn-ios-ffi/src/country.rs:144-146 | A list of that length with that union has the same blocks |
| BypassCidrs.CompileRanges | core/rust/shadowvpn-ios-ffi/src/country.rs:116-134 | Sort, merge and split in place compute the block list of the next rows |
| BypassCidrs.BlocksCover | core/rust/shadowvpn-ios-ffi/src/country.rs:116-134 | The compiled blocks are aligned, ordered, disjoint and cover exactly the input networks |
| BypassCidrs.BlockInOneRange | core/rust/shadowvpn-ios-ffi/src/country.rs:131-134 | No block spans two merged ranges |
| BypassCidrs.BlockMaximal | core/rust/shadowvpn-ios-ffi/src/country.rs:144-146 | Every block is maximal in the set: doubling it leaves the set |
| BypassCidrs.BlocksMinimal | core/rust/shadowvpn-ios-ffi/src/country.rs:116-134 | No list of aligned blocks with the same addresses is shorter, and one as short has the same blocks |
| BypassCidrs.BlocksCanonical | core/rust/shadowvpn-ios-ffi/src/country.rs:116-134 | Two bags of networks compile to the same list if and only if they hold the same addresses |
| BypassCidrs.CompileRangesGen | core/rust/chnroute-gen/src/main.rs:45-63 | The host tool's merge and split compute its block list |
| BypassCidrs.GenMinimalUnlessWhole | core/rust/chnroute-gen/src/main.rs:76-92 | The host tool's list equals the runtime one if and only if some address is outside the country, and is one block longer otherwise |
| BypassCidrs.GenBlocksCover | core/rust/chnroute-gen/src/main.rs:45-63 | The host tool's blocks are aligned and cover exactly the input networks, the whole space included |
| DottedText.PtonDotted | PacketTunnel/Sources/SVTunnelSettings.m:179-183 | Reading back a printed address gives that address |
| DottedText.PtonIff | PacketTunnel/Sources/SVTunnelSettings.m:222-225 | A text is read as an address if and only if it is the printed form of that address, up to text behind a NUL: no leading zeros, spaces or missing parts |
| DottedText.OctetsDetermine | PacketTunnel/Sources/SVTunnelSettings.m:179-183 | The octets are printed with the most significant first: they are the base-256 digits of the address |
| DottedText.DecSpells | PacketTunnel/Sources/SVTunnelSettings.m:179-183 | A printed number has that value in base ten and no leading zero |
| DottedText.IntegerValueMeans | PacketTunnel/Sources/SVTunnelSettings.m:220-220 | The number read from any text: white space skipped, one sign obeyed, digits up to the first other character, clamped to 64 bits; 0 without digits |
| DottedText.TrimMeans | PacketTunnel/Sources/SVTunnelSettings.m:211-212 | Trimming takes the white space at both ends of any text and nothing else |
| DottedText.LinesApart | PacketTunnel/Sources/SVTunnelSettings.m:208-209 | A newline of any kind separates the lines of the text before it from those of the text behind it |
| CountryText.NormalizeSpec | core/rust/shadowvpn-ios-ffi/src/country.rs:65-73 | Normalizing yields only upper-case letters and digits, changes nothing that already is, and is idempotent |
| CountryText.NormalizeByCharacter | core/rust/shadowvpn-ios-ffi/src/country.rs:65-73 | Normalizing goes character by character: capitals and digits stay, a small letter becomes its capital, anything else is dropped |
| CountryText.MatchMeans | core/rust/shadowvpn-ios-ffi/src/country.rs:103-109 | The test and the range added mean membership: the ISO text has the length of the code and its letters up to case, and the address agrees with that of the network in its first bits, as a quotient |
| CountryText.CollectRangesSpec | core/rust/shadowvpn-ios-ffi/src/country.rs:88-110 | The walk fails if and only if an item cannot be decoded; otherwise its ranges hold exactly the addresses that agree in the first prefix bits with a decoded IPv4 network whose ISO text is the code up to case |
| CountryText.BuildCountryCidrs | core/rust/shadowvpn-ios-ffi/src/country.rs:77-142 | Walk, compile and print give the file text, the first decoding error, or the error for a country without networks |
| CountryText.FileOutcome | core/rust/shadowvpn-ios-ffi/src/country.rs:84-114 | A file is produced if and only if every item can be decoded and one is an IPv4 network of the country, its code compared letter by letter up to case; otherwise the first item that cannot be decoded, or the lack of networks, is the error |
| TunnelSettings.RouteIsBlock | PacketTunnel/Sources/SVTunnelSettings.m:243-248 | The printed address and mask of an aligned block match, by bitwise and, exactly the addresses of the block |
| TunnelSettings.AppendChnrouteExclusions | PacketTunnel/Sources/SVTunnelSettings.m:192-239 | The line loop appends the route of every well-formed line in order and counts appended and skipped lines |
| TunnelSettings.ParseCidrLine | PacketTunnel/Sources/SVTunnelSettings.m:211-231 | A printed block line parses back to its own route |
| TunnelSettings.ReadLineByLine | PacketTunnel/Sources/SVTunnelSettings.m:208-232 | For any text the line before a newline gives its route, is skipped and counted, or is passed over uncounted, and what the rest of the text gives follows |
| TunnelSettings.LinesOfFile | core/rust/shadowvpn-ios-ffi/src/country.rs:136-141 | The printed file is two header lines, one line for each block in order, and a final newline |
| TunnelSettings.FileRoundTrip | core/rust/shadowvpn-ios-ffi/src/country.rs:136-141 | Parsing the printed file gives the block list back, passes over the two header lines and skips none |
| TunnelSettings.CountryExcludedExactly | core/rust/shadowvpn-ios-ffi/src/country.rs:77-142 | From database to routing decision: no line is skipped, the excluded addresses are exactly those in a database network whose ISO text is the country's code up to case, and no list of aligned blocks needs fewer routes |
| TunnelSettings.WrittenRoute | PacketTunnel/Sources/SVTunnelSettings.m:211-231 | For an address, the first slash and any text after it only the number read from the text counts: a route of that length from 0 to 32, malformed otherwise |
| TunnelSettings.ParsedIff | PacketTunnel/Sources/SVTunnelSettings.m:206-231 | Every raw line is taken as a route if and only if, without surrounding space, it is an address, a slash and a text from which a number between 0 and 32 is read |
| TunnelSettings.ExcludesAllIff | PacketTunnel/Sources/SVTunnelSettings.m:219-231 | Every raw line excludes every address if and only if it is of that form and the number read is 0 |
| TunnelSettings.SkipPromiseIff | PacketTunnel/Sources/SVTunnelSettings.m:187-191 | For every raw line: lines that are neither comments nor of the documented format, and only those, are skipped, if and only if no text that is not a decimal length from 0 to 32 is read as such a number and no address has text behind a NUL |
| TunnelSettings.BrokenTails | PacketTunnel/Sources/SVTunnelSettings.m:219-221 | For every address: no text, a sign alone and a hexadecimal number exclude everything; letters after a number are dropped |
| TunnelSettings.BrokenAddress | PacketTunnel/Sources/SVTunnelSettings.m:222-231 | A line with any text behind a NUL in the address becomes a route whose destination still holds that text |
| BundledFile.GenerateChnroute | core/rust/chnroute-gen/src/main.rs:18-74 | The host tool's run gives the first decoding error, or the file text of the next rows, also for a country without networks |
| BundledFile.BundledRoundTrip | core/rust/chnroute-gen/src/main.rs:65-71 | Parsing the tool's file gives its block list back and skips nothing, for any blocks and any country without a line break; otherwise the rest of the country is read as lines too |
| BundledFile.BundledExcludedExactly | PacketTunnel/Sources/PacketTunnelProvider.m:432-443 | From database through the bundled file to routing decision: no line is skipped, the excluded addresses are exactly those of the country, with no more routes than any list of aligned blocks, or one more if the country has every address |
| BundledFile.BundledAgreesIff | PacketTunnel/Sources/PacketTunnelProvider.m:432-435 | Taking the bundled file in place of the extracted one gives the same routes in the same order if and only if some address is outside the country |
| SupernetWalk.AppendTen8ExcludingTunnel | PacketTunnel/Sources/SVTunnelSettings.m:159-176 | The mask-and-flip loop appends the sibling halves from length 9 to 30, and nothing if the address does not parse |
| SupernetWalk.KeepNet | PacketTunnel/Sources/SVTunnelSettings.m:166-171 | Masking the /30 and flipping one bit gives the half without the tunnel |
| SupernetWalk.KeptTile | PacketTunnel/Sources/SVTunnelSettings.m:153-176 | At every length the kept halves and the tunnel's half tile the /8 of the address |
| SupernetWalk.TwentyTwoRoutes | PacketTunnel/Sources/SVTunnelSettings.m:153-158 | The walk keeps exactly 22 disjoint blocks, they are the /8 of the address without its /30, and no list of aligned blocks is shorter |
| SupernetWalk.TenExcludedIffInside | PacketTunnel/Sources/SVTunnelSettings.m:131-142 | What is excluded is 10.0.0.0/8 without the tunnel's /30 if and only if the tunnel address is in 10.0.0.0/8 |
| CountryCache.NameInjective | core/rust/shadowvpn-ios-ffi/src/country.rs:50-50 | The cache file name determines the normalized country and the database length |
| CountryCache.TempIsSuffixed | core/rust/shadowvpn-ios-ffi/src/country.rs:168-168 | Replacing the extension only appends a suffix to the name |
| CountryCache.TempApart | core/rust/shadowvpn-ios-ffi/src/country.rs:167-172 | The temporary file of one key is never the cache file of another |
| CountryCache.CacheFilesWhole | core/rust/shadowvpn-ios-ffi/src/country.rs:165-172 | After any run with failures and crashes of the process between file operations and inside a write, a cache file is non-empty and holds a whole extraction for its country and length |
| CountryCache.CacheFilesStay | core/rust/shadowvpn-ios-ffi/src/country.rs:52-57 | Once written a cache file never changes again |
| CountryCache.FreshIff | core/rust/shadowvpn-ios-ffi/src/country.rs:11-18 | Every path handed back in every run holds what a fresh extraction would give, if and only if releases of one length agree on every country one of them knows |
| PowerLoss.WholeIff | core/rust/shadowvpn-ios-ffi/src/country.rs:167-172 | With losses of power that cut files short whose text has not reached storage, cache files are whole in every run if and only if the text is forced to storage before the rename, or no database has a country to write |
| PowerLoss.ReachedSurvives | core/rust/shadowvpn-ios-ffi/src/country.rs:167-172 | In every run a file whose text has just reached storage survives a loss of power whole, and one whose text has not is cut |
| PowerLoss.ShortFileServed | core/rust/shadowvpn-ios-ffi/src/country.rs:52-57 | As written, for any country and any non-empty part of its text: a run in which power is lost after the rename and the next call hands out that part |
| CountryCache.CacheDirectory.EnsureCountryFile | core/rust/shadowvpn-ios-ffi/src/country.rs:34-63 | A whole call with any failure of the disk: bad input and a missing directory change nothing, a hit returns the name, a miss stores the extraction under the name or returns an error with at most the temporary file changed |
| CountryCache.CacheDirectory.WriteAtomic | core/rust/shadowvpn-ios-ffi/src/country.rs:167-172 | The write and the rename put the whole text in place, or fail with an error and at most a partial temporary file |
| WriterContext.WriterSafeIff | core/rust/shadowvpn-ios-ffi/src/engine.rs:326-360 | No task ever calls back through a released context, in any run, if and only if joins do not time out and, with an interceptor, the stop also joins ingress |
| WriterContext.OneEgressIff | core/rust/shadowvpn-ios-ffi/src/engine.rs:332-343 | Two egress tasks never coexist, in any run of starts, restarts and stops, if and only if joins do not time out |
| WriterContext.IngressEscapes | core/rust/shadowvpn-ios-ffi/src/engine.rs:418-421 | A run of the code as written in which ingress calls back after release, with an interceptor |
| WriterContext.EgressDoubles | PacketTunnel/Sources/SVTunnelEngine.m:144-151 | A run in which, after a timed-out join, a restart puts a second egress task on the same context |
| WriterContext.EmitterRetained | PacketTunnel/Sources/SVTunnelEngine.m:168-191 | In a safe deployment every live task that may call back holds a context still retained |
| WriterContext.BetweenOperations | PacketTunnel/Sources/SVTunnelEngine.m:107-191 | Between operations of every run in every deployment the engine is started exactly while it has a session, exactly then one context is retained, the newest, which both its tasks hold, and exactly the tasks of other sessions have been told to end |
| WriterContext.OperationsFromRest | PacketTunnel/Sources/SVTunnelEngine.m:107-191 | From rest, in every run: a start brings the engine up with a new session and context or leaves nothing behind; a restart and a stop take the session away and join it, the context still held; a start on a started engine, and a restart or stop on another, do nothing |
| WriterContext.StopFinishes | core/rust/shadowvpn-ios-ffi/src/engine.rs:326-360 | Wherever a stop or restart has begun in any run, its join can return without a time limit: the aborted tasks leave their polls and end, and then nothing is started or retained, or a new session runs on the same context |
| ReadChain.OneChainIff | PacketTunnel/Sources/SVTunnelEngine.m:206-229 | At most one read of the current epoch is outstanding, and at most one of each past epoch, in every run, if and only if handlers are atomic or no engine object is started twice |
| ReadChain.OutstandingAtMost | PacketTunnel/Sources/SVTunnelEngine.m:35-40 | However handlers interleave, one engine object has at most one read more outstanding than it had stops and failed restarts |
| ReadChain.OutstandingReached | PacketTunnel/Sources/SVTunnelEngine.m:159-161 | That bound is reached for any number of stops by an object started again after each |
| ReadChain.OneOutstandingIff | PacketTunnel/Sources/SVTunnelEngine.m:159-161 | One engine object has at most one read outstanding, in every run, if and only if it is not started twice; the reads of all engines on the flow are in the next rows |
| PacketFlow.OneOnFlowIff | PacketTunnel/Sources/PacketTunnelProvider.m:162-164 | At most one read is outstanding on the flow, over all engines ever made for it and in every run, if and only if no engine is started on it after one has been |
| PacketFlow.OnFlowAtMost | PacketTunnel/Sources/SVTunnelEngine.m:35-40 | However engines and handlers interleave, at most as many reads are outstanding on the flow as there were stops and failed restarts, and one more for each engine that is up |
| PacketFlow.OnFlowReached | PacketTunnel/Sources/SVTunnelEngine.m:168-191 | That bound is reached for any number of stops by tunnels with an engine of their own each, none of which has two reads itself |
| ReadChain.NoStaleUseIff | PacketTunnel/Sources/SVTunnelEngine.m:214-220 | No read armed before a stop or failed restart ingests or re-arms after it, in every run, if and only if handlers are atomic, even if the engine is started again |
| ReadChain.ChainWhileStarted | PacketTunnel/Sources/SVTunnelEngine.m:107-164 | Between operations a started engine has exactly one current read, whatever restarts happened, if handlers are atomic or the object is started once |
| ReadChain.StoppedQuietIff | PacketTunnel/Sources/SVTunnelEngine.m:206-210 | A stopped engine has no read of the current epoch, in every run, if and only if handlers are atomic |
| ReadChain.StoppedEngineArms | PacketTunnel/Sources/SVTunnelEngine.m:206-210 | A run in which a whole stop falls between the flag test and the epoch load of a re-arming, and the stopped engine is left with one read of the new epoch |
| ReadChain.RestartKeepsChain | PacketTunnel/Sources/SVTunnelEngine.m:153-164 | A restart that succeeds arms nothing and keeps the flag, the epoch and the outstanding read |
| TunnelEngine.SVTunnelEngine.Start | PacketTunnel/Sources/SVTunnelEngine.m:107-127 | Idempotent when started; a failed start releases the context and arms nothing; otherwise one read is armed with the current epoch |
| TunnelEngine.SVTunnelEngine.Restart | PacketTunnel/Sources/SVTunnelEngine.m:131-164 | Fails on a stopped engine; on success changes neither flow nor epoch nor context; on failure advances the epoch and releases the context |
| TunnelEngine.SVTunnelEngine.Stop | PacketTunnel/Sources/SVTunnelEngine.m:168-191 | Idempotent; advances the epoch, releases the context and leaves the flow alone |
| TunnelEngine.SVTunnelEngine.ReadCompleted | PacketTunnel/Sources/SVTunnelEngine.m:210-228 | A completion of the current epoch hands over its packets in order and re-arms once; any other changes nothing but its own read |
| IngestQueue.QueueBounded | core/rust/shadowvpn-ios-ffi/src/engine.rs:62-66 | In every run no queue holds more than 1024 packets |
| IngestQueue.EveryCallOnce | core/rust/shadowvpn-ios-ffi/src/engine.rs:370-382 | In every run, with calls that overlap or not, every call that has begun is pending or has become exactly one packet, and no packet is of two calls or of none |
| IngestQueue.FateExact | core/rust/shadowvpn-ios-ffi/src/engine.rs:370-450 | The one fate recorded for each packet says exactly where it is: in one queue, in one task's hands, or on the wire once |
| IngestQueue.FinalFateIff | core/rust/shadowvpn-ios-ffi/src/engine.rs:370-450 | In every run a packet ends as rejected, dropped, intercepted, unencryptable, failed, lost or sent if and only if an event of that run decided it: dropped on a full queue, rejected without a session or after its task ended, lost by an abort or the failed send of an earlier packet |
| IngestQueue.EndedIff | core/rust/shadowvpn-ios-ffi/src/engine.rs:408-450 | In every run the ingress task of a session has ended if and only if an event ended it: a failed send, an abort taken at an await, or a receive with nothing queued and no sender left; for the session in the slot it was a failed send |
| IngestQueue.SentOnceInOrder | core/rust/shadowvpn-ios-ffi/src/engine.rs:408-450 | No packet is sent twice and the datagrams of a session keep the order in which their packets were tried on the queue |
| IngestQueue.UpBytesExact | core/rust/shadowvpn-ios-ffi/src/engine.rs:440-442 | Across restarts the counter, with the packets sent but not counted yet, equals the total size of the datagrams that left |
| IngestQueue.GlobalOrderIff | core/rust/shadowvpn-ios-ffi/src/engine.rs:332-360 | Datagrams leave in the order in which their packets were tried, in every run, if and only if a new session waits for the ingress task of the old one; overlap makes no difference to that |
| IngestQueue.CallOrderIff | core/rust/shadowvpn-ios-ffi/src/engine.rs:370-382 | In every run the datagrams of each session leave in the order of the calls if and only if calls do not overlap, and all datagrams do if and only if, besides, a new session waits for the old ingress task |
| DataPlane.Engine.Start | core/rust/shadowvpn-ios-ffi/src/engine.rs:175-297 | Refused while running; otherwise a fresh empty session becomes current and the counter is kept |
| DataPlane.Engine.Stop | core/rust/shadowvpn-ios-ffi/src/engine.rs:326-336 | Clears the slot and the flag, and loses neither packets nor counts |
| DataPlane.Engine.Ingest | core/rust/shadowvpn-ios-ffi/src/engine.rs:370-382 | Minus one exactly for a non-empty packet without a session or with an ended task; a full queue drops and returns zero; otherwise the packet is last in the queue of the current session |
| DataPlane.Engine.IngressLoop | core/rust/shadowvpn-ios-ffi/src/engine.rs:408-450 | For any outcomes the loop sends exactly the packets that encrypt and send, in queue order, up to the first failed send, and counts exactly their bytes |
| Debounce.RestartsOnChange | PacketTunnel/Sources/PacketTunnelProvider.m:360-410 | The branches ask for a restart if and only if an earlier path is recorded and the new one is satisfied and different |
| PathUpdates.LiveIff | PacketTunnel/Sources/PacketTunnelProvider.m:319-358 | In every run the generation compared by the code passes exactly the monitor whose start was the last start or stop carried out |
| PathUpdates.UpdateRestartsIff | PacketTunnel/Sources/PacketTunnelProvider.m:354-421 | In every run an update schedules a restart, or goes on to, if and only if its monitor is live, its path is satisfied and the latest earlier update of that monitor, by position among the events, was unsatisfied or had another path; the first update of a monitor never does, and one of another monitor changes nothing |
| Debounce.OneCurrentBlock | PacketTunnel/Sources/PacketTunnelProvider.m:240-256 | Of all blocks ever scheduled at most one carries the current generation |
| Debounce.RestartsApart | PacketTunnel/Sources/PacketTunnelProvider.m:18-22 | In every timed run two restarts carried out are of different generations and their checks are at least three seconds apart |
| Debounce.SupersededNeverRuns | PacketTunnel/Sources/PacketTunnelProvider.m:261-267 | A block superseded at some point of a run is not carried out in any continuation |
| Debounce.SleepIsFinal | PacketTunnel/Sources/PacketTunnelProvider.m:194-236 | After a sleep, a call of stop or a wake, whatever follows, no block scheduled before it is carried out |
| Debounce.StopIsFinal | PacketTunnel/Sources/PacketTunnelProvider.m:194-205 | After a stop is called no restart is carried out but of a tunnel started after that stop, whatever blocks and jobs were waiting |
| Debounce.OwnTunnelIff | PacketTunnel/Sources/PacketTunnelProvider.m:223-256 | Every restart answers an event seen while the engine of that very tunnel was running, in every run, if and only if a path update checks and schedules in one step and a start supersedes the blocks that wait |
| Debounce.EarlyWakeRestarts | PacketTunnel/Sources/PacketTunnelProvider.m:223-236 | A run of the code as written in which a wake before any tunnel exists restarts the tunnel started after it |
| Debounce.StoplessStartRestarts | PacketTunnel/Sources/PacketTunnelProvider.m:319-321 | A run in which a restart fails, the old monitor reports a change, and the change restarts a second tunnel started with no stop between |
| Debounce.StaleUpdateRestarts | PacketTunnel/Sources/PacketTunnelProvider.m:354-421 | A run in which a path update passes its check, the tunnel is stopped and another started, and the update restarts the second |
| TunnelStarts.StartIsSafeIff | PacketTunnel/Sources/PacketTunnelProvider.m:158-186 | For every deployment, every run and every queue: after a start is carried out the new tunnel is never restarted for an event from before it if and only if a stop is behind the start on the queue, or no update is past its check and no block of the current generation waits (or the start supersedes it) |
| TunnelStarts.AsWrittenStartIsSafeIff | PacketTunnel/Sources/PacketTunnelProvider.m:354-419 | The same for the code as written, whose updates check and schedule in two steps and whose starts take no generation |
| Debounce.WakeRestarts | PacketTunnel/Sources/PacketTunnelProvider.m:223-236 | An event followed by nothing else for the window restarts the running engine at its end |
| TunnelProvider.PacketTunnelProvider.HandlePathUpdate | PacketTunnel/Sources/PacketTunnelProvider.m:354-422 | Schedules a restart exactly when the events so far say so: its monitor is live, the new path is satisfied, an update of that monitor came before and the latest of them had another path |
| TunnelProvider.PacketTunnelProvider.CheckPath | PacketTunnel/Sources/PacketTunnelProvider.m:354-415 | The first half of an update goes on to schedule exactly under that condition on the events so far, and schedules nothing itself |
| TunnelProvider.PacketTunnelProvider.ScheduleChecked | PacketTunnel/Sources/PacketTunnelProvider.m:417-421 | The second half, whatever ran in between: the next generation is taken and a block armed for the end of the window, without another look at the monitor |
| TunnelProvider.PacketTunnelProvider.RestartEngine | PacketTunnel/Sources/PacketTunnelProvider.m:261-291 | Restarts exactly if the generation is current and an engine is there, and drops the engine if the restart fails |
| TunnelProvider.PacketTunnelProvider.RunControlQueue | PacketTunnel/Sources/PacketTunnelProvider.m:158-211 | Each job of the control queue is one step of the timed runs |
| InternetChecksum.FoldCarries | core/rust/shadowvpn-ios-ffi/src/dns_intercept.rs:474-476 | The fold loop terminates on every 32-bit sum with its one's-complement residue |
| InternetChecksum.NormSpec | core/rust/shadowvpn-ios-ffi/src/dns_intercept.rs:474-476 | That residue is congruent to the sum modulo 65535, and zero only for a zero sum |
| InternetChecksum.Checksum | core/rust/shadowvpn-ios-ffi/src/dns_intercept.rs:465-478 | The loop over words, odd tail included, computes the complement of the folded sum |
| InternetChecksum.UdpChecksum | core/rust/shadowvpn-ios-ffi/src/dns_intercept.rs:482-508 | The same over the pseudo-header and the segment |
| InternetChecksum.PseudoHeaderSum | core/rust/shadowvpn-ios-ffi/src/dns_intercept.rs:482-494 | The sum it starts from is the word sum of the twelve octets of the pseudo-header, so that it is the checksum of the pseudo-header with the segment behind it |
| InternetChecksum.SumsFit | core/rust/shadowvpn-ios-ffi/src/dns_intercept.rs:466-473 | The 32-bit sums do not overflow for anything that fits an IPv4 packet |
| InternetChecksum.ChecksumDetectsByte | core/rust/shadowvpn-ios-ffi/src/dns_intercept.rs:463-478 | Data that checks to zero no longer does after any change of one byte |
| InternetChecksum.UdpChecksumDetectsByte | core/rust/shadowvpn-ios-ffi/src/dns_intercept.rs:482-508 | The same for a segment under its pseudo-header |
| DnsPacket.BuildUdpIpv4 | core/rust/shadowvpn-ios-ffi/src/dns_intercept.rs:421-461 | Filling the buffer in place, checksum fields last, gives the packet of the next rows |
| PacketFields.BuiltFields | core/rust/shadowvpn-ios-ffi/src/dns_intercept.rs:421-461 | Field by field a built packet has no options, "don't fragment" alone set, a time to live of 64, protocol 17, the addresses and ports given, both lengths modulo 2^16 and the payload at the end |
| DnsPacket.HeaderVerifies | core/rust/shadowvpn-ios-ffi/src/dns_intercept.rs:432-444 | The header of a built packet checks to zero |
| DnsPacket.SegmentVerifies | core/rust/shadowvpn-ios-ffi/src/dns_intercept.rs:446-458 | The segment of a built packet checks to zero for payloads up to 65,507 bytes, odd lengths and the substitution for zero included, and the stored checksum is never zero |
| DnsPacket.OneByteChangeDetected | core/rust/shadowvpn-ios-ffi/src/dns_intercept.rs:421-508 | Any change of one byte of a built packet makes one of the two checksums non-zero |
| DnsPacket.ParseBuilt | core/rust/shadowvpn-ios-ffi/src/dns_intercept.rs:364-461 | What parsing a built packet gives for every payload length, the 16-bit truncation of the length field included |
| DnsPacket.BuildParseRoundTrip | core/rust/shadowvpn-ios-ffi/src/dns_intercept.rs:364-461 | A built packet parses back to all five fields if and only if it goes to port 53 with 1 to 65,527 bytes; to any other port it does not parse |
| PacketFields.ParsedFields | core/rust/shadowvpn-ios-ffi/src/dns_intercept.rs:364-414 | A packet serialized from any fields, options and trailing bytes parses if and only if it is an unfragmented UDP packet to port 53 whose length counts at least one payload byte and none that is missing, and then to its addresses, ports and those bytes |
| PacketFields.AcceptedIff | core/rust/shadowvpn-ios-ffi/src/dns_intercept.rs:364-414 | All packets: what is accepted, and as which query, is exactly what such fields serialize to |
| PacketFields.ClampedFields | core/rust/shadowvpn-ios-ffi/src/dns_intercept.rs:398-406 | The variant that clamps, on the same fields: a length past the end counts all there is |
| DnsPacket.ClampedIff | core/rust/shadowvpn-ios-ffi/src/dns_intercept.rs:398-406 | For every packet the parser agrees with one that clamps the UDP length to the buffer if and only if there is nothing to clamp; where the clamp would fire it gives nothing |
| DnsPacket.CutQueryDropped | core/rust/shadowvpn-ios-ffi/src/dns_intercept.rs:399-402 | Any built query cut short within its payload is dropped, where clamping would give what is left |
| DnsInterception.RepliesRecognized | core/rust/shadowvpn-ios-ffi/src/dns_intercept.rs:226-237 | As written a resolver reply is recognized if and only if the client is the resolver's own address at port 53; keyed on the source, if and only if it has a transaction id |
| DnsInterception.IntendedRecognized | core/rust/shadowvpn-ios-ffi/src/dns_intercept.rs:230-231 | The variant keyed on the source recovers the answer of every resolver reply with a transaction id |
| DnsInterception.TxidIsTwoBytes | core/rust/shadowvpn-ios-ffi/src/dns_intercept.rs:239-240 | Two messages have the same transaction id if and only if they agree in their first two bytes |
| DnsInterception.DnsInterceptor.SendCleanTunneled | core/rust/shadowvpn-ios-ffi/src/dns_intercept.rs:280-322 | Inserts the client under the transaction id and returns the packet for the resolver, or takes the entry out again if it does not encrypt; without an id nothing happens |
| DnsInterception.DnsInterceptor.FinishQuery | core/rust/shadowvpn-ios-ffi/src/dns_intercept.rs:194-219 | A domestic local answer clears the transaction id and leaves in one packet whose bytes go from the address and port the query was sent to, to those it came from, with the answer as payload; otherwise nothing changes |
| DnsInterception.DnsInterceptor.TryHandleTunneledReply | core/rust/shadowvpn-ios-ffi/src/dns_intercept.rs:226-258 | Consumes the pending entry and emits one packet whose bytes go from the server address and port of the entry to those of its client, or changes nothing |
| DnsInterception.EveryInsertAccountedFor | core/rust/shadowvpn-ios-ffi/src/dns_intercept.rs:280-330 | In every interleaving insertions equal overwrites, clears that hit, withdrawals after failed encryption, consumed replies and entries still pending |
| DnsInterception.EachQueryAnsweredOnce | core/rust/shadowvpn-ios-ffi/src/dns_intercept.rs:190-258 | In every interleaving at most one local and at most one clean answer is decided for each query |
| DnsInterception.AnswersAddressed | core/rust/shadowvpn-ios-ffi/src/dns_intercept.rs:194-258 | In every interleaving every answer decided, local or clean, is a packet from the address and port its own query was sent to, to those that query came from, carrying the message that decided it |
| DnsInterception.AnswersSent | core/rust/shadowvpn-ios-ffi/src/dns_intercept.rs:209-257 | In every interleaving the answers sent and those still held by a task are exactly the answers decided, each once |
| DnsInterception.SentAtMostOnce | core/rust/shadowvpn-ios-ffi/src/dns_intercept.rs:190-258 | No client is sent two local or two clean answers to one query |
| DnsInterception.ReplyGoesToLatest | core/rust/shadowvpn-ios-ffi/src/dns_intercept.rs:239-257 | A consumed reply sends one packet to the client that last inserted its transaction id, and a second copy is not consumed |
| DnsInterception.ReplyToLatestQuery | core/rust/shadowvpn-ios-ffi/src/dns_intercept.rs:239-257 | In every interleaving a consumed reply is sent once, from where the last query taken up with its transaction id was sent, to where that query came from |
| DnsInterception.BothAnswersIff | core/rust/shadowvpn-ios-ffi/src/dns_intercept.rs:209-257 | Over all runs a query gets both answers if and only if a reply consumes its entry before its domestic local answer, and never the other way round |
| DnsInterception.NoCleanAfterLocal | core/rust/shadowvpn-ios-ffi/src/dns_intercept.rs:239-244 | No reply consumes the entry of a query after its local answer |
| DnsInterception.LocalSentFirst | core/rust/shadowvpn-ios-ffi/src/dns_intercept.rs:256-257 | A run in which the local answer is nevertheless sent first, while the other task still holds the clean one |
| DnsInterception.AsWrittenNeverConsumes | core/rust/shadowvpn-ios-ffi/src/dns_intercept.rs:226-237 | As written, no run in which the tunnel carries resolver replies to client ports other than 53 ever gives a clean answer |
| DnsInterception.BothAnswersByRecognizer | core/rust/shadowvpn-ios-ffi/src/dns_intercept.rs:226-237 | On such traffic a client can get two answers if and only if the recognizer is keyed on the source |
| DnsInterception.EchoRecognized | core/rust/shadowvpn-ios-ffi/src/dns_intercept.rs:226-237 | What the recognizer as written does take: packets addressed to the resolver |
| DirectSocket.OwnAnswersIff | core/rust/shadowvpn-ios-ffi/src/dns_intercept.rs:263-273 | In every run each domestic query gets its own answer or none if and only if no query ends without a datagram and no reply is delivered twice |
| DirectSocket.QueryOwnIff | core/rust/shadowvpn-ios-ffi/src/dns_intercept.rs:263-273 | Whatever happens next, a query sent gets its own answer or none if and only if no reply to an earlier query is unread or may still arrive |
| DirectSocket.ShiftPersists | core/rust/shadowvpn-ios-ffi/src/dns_intercept.rs:263-273 | After one late reply any number of further queries are each answered with the reply to the one before, although all replies come in time |
| Base64.BuildReverseTable | core/rust/shadowvpn-ios-ffi/src/obfs.rs:164-172 | The table loop inverts the alphabet on all 256 bytes |
| Base64.Decode | core/rust/shadowvpn-ios-ffi/src/obfs.rs:199-219 | The wrapping, never masked accumulator returns the complete bytes of the bit string of the symbols before the padding, or nothing if one of them is not a symbol |
| Base64.LowBitsSuffice | core/rust/shadowvpn-ios-ffi/src/obfs.rs:211-215 | The high bits lost by wrapping never matter to an extracted byte |
| Base64.Encode | core/rust/shadowvpn-ios-ffi/src/obfs.rs:175-195 | The chunk loop encodes group by group |
| Base64.GroupBits | core/rust/shadowvpn-ios-ffi/src/obfs.rs:175-195 | Which bits of one, two or three bytes each character of a group stands for |
| Base64.DecodeEncode | core/rust/shadowvpn-ios-ffi/src/obfs.rs:175-219 | Decoding an encoding gives the data back, for all data |
| Base64.EncodedShape | core/rust/shadowvpn-ios-ffi/src/obfs.rs:175-195 | Four characters of the standard alphabet or padding for each started group of three bytes |
| Base64.RejectedIff | core/rust/shadowvpn-ios-ffi/src/obfs.rs:197-210 | Every input is rejected if and only if a byte outside the alphabet precedes every padding character; so the promise to reject such a byte anywhere is kept if and only if there is none or one is there |
| Base64.PaddingHidesForeign | core/rust/shadowvpn-ios-ffi/src/obfs.rs:204-206 | An input with such a byte after the padding is accepted |
| Base64.AlphabetSpelled | core/rust/shadowvpn-ios-ffi/src/obfs.rs:160-160 | The alphabet literal, which the table and the encoder index, spells the symbols of the specification |
| Obfuscation.QuicObfs.Wrap | core/rust/shadowvpn-ios-ffi/src/obfs.rs:78-94 | The counter advances modulo 2^32; the packet is the head byte, the connection id, two bytes that spell the counter modulo 65,536, and the datagram, for any random byte |
| Obfuscation.PnValue | core/rust/shadowvpn-ios-ffi/src/obfs.rs:91-91 | The number bytes spell the counter modulo 256 to their number, most significant first, for 1 to 4 of them |
| Obfuscation.WrapTwo | core/rust/shadowvpn-ios-ffi/src/obfs.rs:78-94 | Two datagrams wrapped one after the other carry consecutive numbers modulo 65,536 behind the connection id, whatever the counter was |
| Obfuscation.QuicRoundTrip | core/rust/shadowvpn-ios-ffi/src/obfs.rs:78-111 | Unwrapping undoes wrapping for every packet number, random byte and packet-number length |
| Obfuscation.HeadByte | core/rust/shadowvpn-ios-ffi/src/obfs.rs:86-86 | The masks and ors put the fixed bit, the middle bits and the number length side by side without a carry |
| Obfuscation.MiddleBitsIsMask | core/rust/shadowvpn-ios-ffi/src/obfs.rs:86-86 | Masking the random byte keeps exactly its four middle bits |
| Obfuscation.QuicAccepts | core/rust/shadowvpn-ios-ffi/src/obfs.rs:99-111 | What is accepted, and as which datagram, is exactly what wrapping can produce with some connection id of that length, packet number, number length and random byte |
| Obfuscation.ShapeRoundTrip | core/rust/shadowvpn-ios-ffi/src/obfs.rs:141-157 | Both shapings are undone by a peer that selected the same one |
| TlsSni.ReadSni | core/rust/shadowvpn-ios-ffi/src/inspect.rs:93-141 | The cursor walk terminates, stays in range on any bytes and computes the walk of the next rows |
| TlsSni.ReadExtensions | core/rust/shadowvpn-ios-ffi/src/inspect.rs:125-140 | The loop over extensions computes the recursive walk |
| TlsSni.HandshakePrefix | core/rust/shadowvpn-ios-ffi/src/inspect.rs:100-123 | On any prefix of a serialized handshake: nothing without the whole prelude, otherwise what the extensions present promise |
| TlsSni.SniInverts | core/rust/shadowvpn-ios-ffi/src/inspect.rs:90-141 | For every one-record ClientHello whose first server-name extension begins with a host name, a prefix yields that name if it reaches the end of that extension and nothing otherwise |
| TlsSni.NoSniNoName | core/rust/shadowvpn-ios-ffi/src/inspect.rs:90-141 | Without a server-name extension no prefix yields anything |
| TlsSni.SniIff | core/rust/shadowvpn-ios-ffi/src/inspect.rs:93-141 | All bytes: a name is found if and only if they are a handshake record with a ClientHello whose fields are whole and whose first server-name extension, within the announced extensions, is there in full and begins with that name as a host name |

## Left out

- Sockets, the tokio runtime, NetworkExtension callbacks and file descriptors: only their abstract events are kept (a packet arrives, a send fails, a task reaches an await, a timer fires).
- Encryption, the address lookup of `chnroute`, DNS questions and answers, and the database reader: their source is not part of this model; outcomes are free inputs of the steps that use them.
- Relaxed memory ordering: every step on an atomic variable takes effect at once and in order.
- Wrap-around of the 64-bit epochs and generations, and of the 64-bit byte counters.
- The fire-and-forget `stop`: the extension never calls it.
- The keepalive task: it neither calls back nor touches the queue or the counter.
- Intercepted queries that are not of type A: they are relayed without touching the pending map. Their use of the direct socket is in the runs of `DirectSocket`.
- UTF-8 validity of a server name: a parameter of the walk. Sizes beyond the address space of the machine are not modelled.
- Random connection ids, middle bits and first packet numbers: arbitrary inputs; nothing is said of their distribution.
- The rest of the route list (server exclusions, fixed private ranges, DNS settings) in `makeWithServerAddress`, and host name resolution: straight lists and platform calls.
- `http_host` and the log strings of `inspect.rs`, configuration validation, logging, memory relief, the traffic display, the app's views and its stored state.
- Weak references to an engine or provider that is already gone: their blocks and handlers do nothing.
- DnsPacket.SegmentVerifies: payloads over 65,507 bytes are not covered, because such a packet exceeds the IPv4 length field.
- InternetChecksum.SumsFit: data over 65,535 bytes is not covered, because the 32-bit sum may then wrap.
- TunnelEngine.SVTunnelEngine.ReadCompleted: the object runs each handler as a whole; handlers in steps are in the runs of `ReadChain`.
- TunnelProvider.PacketTunnelProvider.HandlePathUpdate: runs the callback as a whole; `CheckPath` and `ScheduleChecked` are its two halves, between which the object may run anything else.
- Datagrams on the direct socket from other senders, which the code does not tell apart, and the cut of a reply at 1,500 bytes.
- How the platform reads the texts of a route: with the reader of `DottedText`, as the parser checks them.
- DataPlane.Engine.Ingest: the object runs each call as a whole; calls that overlap are in the runs of `IngestQueue`.
- DataPlane.Engine.IngressLoop: the loop ends with its queue; waiting for the next packet, and the abort while waiting, are steps of the runs of `IngestQueue`.
