# dns-tls-relay, modelled in Dafny

The relay takes DNS queries over UDP, rebuilds and pads them, sends them to public resolvers over TLS, and rewrites,
forwards and caches the answers. These modules model the parts of it that parse and rewrite untrusted bytes or keep
shared state, and prove what they promise for all inputs and all runs.

| file | models |
|---|---|
| `Wire.dfy` | octets, Python's clipping slices, big-endian integers |
| `Names.dfy` | the name parser of `protocol_tools.py`, against section 4.1.4 of RFC 1035 |
| `Rewrite.dfy` | `ttl_rewrite`: framing, TTL clamping, the list of records to cache |
| `Preserve.dfy` | what `ttl_rewrite` leaves alone, on any input; idempotence |
| `Messages.dfy` | messages as values, their encoding, and the meaning of a rewritten message |
| `Edns.dfy` | the EDNS0 codec and sanitiser (section 6.1.2 of RFC 6891, section 3 of RFC 7830, section 4.1 of RFC 8467) |
| `DomainText.dfy` | `domain_stob`: from dotted text back to wire labels |
| `Client.dfy` | `ClientRequest` and the header builders |
| `Upstream.dfy` | what a resolver reads in a query the relay built |
| `Replay.dfy` | which records are cached, and how a replayed answer lines up with the forwarded one |
| `Compression.dfy` | which layouts let compressed names survive the replay of a message |
| `Frames.dfy` | the frame reassembly of `_recv_handler` (section 4.2.2 of RFC 1035) |
| `Cache.dfy` | `DNSCache`: records, expiry heap, negative cache |
| `Limiter.dfy` | `RateLimiter` |
| `WorkQueue.dfy` | `relay_queue` as an interleaved step system |
| `Requests.dfy` | the in-flight request table under concurrent handlers, responder and cleaner |
| `Ranking.dfy` | top-domain scores, the self-tuned decay rate, restart |

Python functions that only compute an expression are functions; loops and methods that update fields are methods,
proved against specification functions about which the lemmas are stated. Exceptions are the `Err` case of `Result`.
Clock readings, random IDs and the choice among equal scores are parameters or free choices. Where threads share state,
each locked section or single dictionary operation is one step, and "every interleaving" means every sequence of enabled
steps.

Where the code and its own documentation disagree, the model follows the code:

- The table IDs are drawn from 70 to 65534 (`dns_tls_relay.py:437`), not from 70 to 32000 as the repository's README says.
- Only NXDOMAIN answers enter the negative cache (`dns_tls_relay.py:476`), although the docstrings and the README
  mention SERVFAIL as well.
- The churn of the "top five" is taken over the alphabetically first five of each set (`dns_tls_relay.py:761-762`), not over the
  highest ranked ones.
- Question names are parsed with the whole packet as pointer reference (`dns_tls_packets.py:72`, `dns_tls_packets.py:196`)
  while pointer targets are taken relative to the payload (`protocol_tools.py:34`). `Names.QuestionPointersAreShifted`
  says what is read instead, `Names.PointerQuestionMisread` gives a packet, and `Names.PointerFreeQuestion` the names
  that are read right.

Two more places where the code misses its purpose, with the exact condition:

- A replayed answer copies pointers as they were (`dns_tls_packets.py:93-98`) although records behind an uncached one
  move. `Compression.ReplayConditionIsExact` says for which layouts names survive that, and `Replay.ReplayMisreadsName`
  gives a message.
- A response is matched by its ID alone (`dns_tls_relay.py:456-481`) and an ID is free again 30 seconds after its query
  was filled in. `Requests.ReuseConditionIsExact` says when that can go wrong, `Requests.LateResponseGoesAstray` gives a run.

## Model

| member | source | states |
|---|---|---|
| Names.ParseQueryName | protocol_tools.py:5-59 | The parser terminates on every input and returns the length of the name, the joined labels and the local-domain flag. |
| Names.PointerValueMasks | protocol_tools.py:29 | The pointer value is the low 14 bits of the two bytes. |
| Names.FramingLocal | protocol_tools.py:15-51 | How many bytes a name occupies depends only on those bytes and the next one, never on what a pointer leads to. |
| Names.FramingIs | protocol_tools.py:15-51 | On any bytes a name takes its whole labels and one byte more, or two when they end in a pointer that is in range. |
| Names.LocalByText | protocol_tools.py:53-54 | A name of labels without dots counts as local exactly when its text has no dot, or ends in `.local`. |
| Names.ParserExpandsNames | protocol_tools.py:15-48 | With the payload as reference the parser ends at a terminator with labels of at most 63 bytes exactly when the RFC 1035 expansion is finite and in range, and then its labels are that expansion. |
| Names.RevisitGuardIsExact | protocol_tools.py:30-32 | The visited-pointer guard fires exactly on names whose expansion never ends. |
| Names.QuestionPointersAreShifted | dns_tls_packets.py:72 | With the whole packet as reference a name is read as if 12 more bytes preceded the message. |
| Names.PointerFreeQuestion | dns_tls_packets.py:72 | A question name without a pointer is read as RFC 1035 says. |
| Names.PointerQuestionMisread | dns_tls_packets.py:72 | A concrete packet whose question name `a`, written as a pointer, is read as the root. |
| Rewrite.ParseRecord | dns_tls_packets.py:253-276 | One record at an offset: its fields, its type and the next offset, or a truncation error; overlong rdata is clipped. |
| Rewrite.RewriteRecord | dns_tls_packets.py:225-242 | One record extends the reply, the clamped TTL and the cached list as the record sequence so far demands. |
| Rewrite.RewriteSection | dns_tls_packets.py:216-242 | The inner loop handles exactly the capped number of records and stops at the first malformed one with its error. |
| Rewrite.RewriteSections | dns_tls_packets.py:208-242 | The outer loop handles the answer and then the authority section. |
| Rewrite.TtlRewrite | dns_tls_packets.py:174-251 | The rewritten reply, the cache entry and the rcode, or the error, for every input. |
| Rewrite.ClampTtl | dns_tls_packets.py:228-231 | The clamped TTL is the value of 300 to 3600 nearest to the TTL, one with the top bit set counting as zero; a TTL is unchanged exactly when it lies there already. |
| Rewrite.FrontCut | dns_tls_packets.py:253-276 | A record is refused exactly when the ten bytes behind its name do not fit; otherwise where each field is read, how overlong rdata is clipped and where the next record starts. |
| Rewrite.SectionFails | dns_tls_packets.py:216-222 | A section is refused only for a record that is refused itself, behind ones that are not. |
| Preserve.SectionsTile | dns_tls_packets.py:211-219 | The parsed records are, byte for byte, the stretch of input they claim. |
| Preserve.OnlyTtlsChange | dns_tls_packets.py:174-276 | On any input, malformed or not, the reply has the input's length, starts with the client's ID and differs only in the disjoint TTL fields of the parsed A, CNAME and AAAA records, which hold the clamped values. |
| Preserve.RewriteTwice | dns_tls_packets.py:174-276 | On its own output the rewrite succeeds, frames the same records and gives the same bytes, cache entry and rcode, up to the ID asked for. |
| Replay.RepliedTtls | dns_tls_packets.py:224-232 | For every parsed record, in the bytes of response and reply: the TTL field of types 1, 5 and 28 holds the nearest value of 300 to 3600, any other the same as before. |
| Messages.NameFramed | protocol_tools.py:42-51 | An encoded name occupies its labels plus one byte, or plus two when it ends in an in-range pointer. |
| Messages.NameParsed | protocol_tools.py:15-48 | The labels of a pointer-free encoded name are read back exactly, against any reference. |
| Messages.QuestionReadRight | dns_tls_packets.py:72 | A question name is read as RFC 1035 says in every packet that asks for it exactly when it has no pointer, or one into the header that both readings refuse. Labels with a pointer into the name or right behind it are set apart. |
| Messages.OwnTargetReadRight | dns_tls_packets.py:72 | Twelve bytes of labels with a pointer to its own place are refused by both readings, in every packet. |
| Messages.RewriteClampsMessage | dns_tls_packets.py:174-251 | Rewriting an encoded well-formed message gives the encoding of the same message with the client's ID and the TTLs of exactly the reached A, CNAME and AAAA records clamped. |
| Messages.CapNeverBites | dns_tls_packets.py:216-217 | The loops reach every answer and authority record exactly when neither count exceeds a twelfth of the bytes left. |
| Messages.ShortestRecord | dns_tls_packets.py:213-217 | Only a record with the root name and no rdata is shorter than the 12 bytes the cap reckons with. |
| Messages.TwelveBytesSuffice | dns_tls_packets.py:213-217 | When every record has 12 bytes the cap never bites. |
| Messages.RewriteClampsEverything | dns_tls_packets.py:216-232 | All A, CNAME and AAAA records come out clamped exactly when those behind the cap need no clamping. |
| Messages.ShortRecordEscapes | dns_tls_packets.py:217 | A concrete message whose single 11-byte A record is skipped and keeps its TTL of zero. |
| Edns.ParseSingleOptRecord | protocol_tools.py:86-119 | The parsed OPT record, or nothing for any other shape. |
| Edns.ParseRdata | protocol_tools.py:106-117 | The option loop yields all options of the rdata, or nothing when they do not fill it exactly. |
| Edns.OptRoundTrip | protocol_tools.py:86-119 | Parsing an encoded OPT record gives back its size, flags and options. |
| Edns.OptCanonical | protocol_tools.py:86-119 | Encoding whatever the parser accepts gives back the same bytes. |
| Edns.OptLayout | protocol_tools.py:92-117 | Where an accepted record has its type 41, UDP size, flags and length, and an option its code, length and data. |
| Edns.SanitizeAndPadEdns | protocol_tools.py:121-163 | The OPT record sent upstream, or a packing error when its rdata exceeds 16 bits. In the sent bytes: the client's UDP size, or 4096; DO set exactly when DNSSEC is on or the client set it, and the client's other 31 flag bits; the client's options without the subnet and then zero padding. |
| Edns.SentBytes | protocol_tools.py:138-163 | The same of every OPT record that fits 16 bits. |
| Edns.SubnetStripped | protocol_tools.py:152 | The kept options are the client's other than code 8, each once and in order. |
| Edns.WithDoSetsOneBit | protocol_tools.py:147-150 | Setting DO keeps the other 31 bits of extended rcode and flags. |
| Edns.SanitizedOptRecord | protocol_tools.py:138-163 | What is sent parses back to the client's options without the subnet plus one padding option, fills whole 128-byte blocks with fewer than 128 padding bytes, and no smaller padding would. |
| DomainText.TextRoundTrip | protocol_tools.py:61-68 | Labels decoded to text and written back give the same wire name exactly when they are ASCII and hold no dot. |
| DomainText.StobFails | protocol_tools.py:62-64 | A text can be written exactly when no part of it has more than 255 characters. |
| DomainText.StobSpells | protocol_tools.py:61-68 | Each part is written as the count of its characters and its UTF-8 bytes, with a zero byte at the end. |
| DomainText.Utf8Decodes | protocol_tools.py:63 | A UTF-8 decoder reads the code points of the text back. |
| Client.FlagsRoundTrip | protocol_tools.py:71-84 | Flags packed by the header builders are read back by the shifts of the request parser. |
| Client.FlagBits | dns_tls_packets.py:57-66 | Which bits of the header word are read as which flag. |
| Client.HeaderReads | protocol_tools.py:71-84 | A built header reads back: ID, flags, one question and the given counts. |
| Client.ClientRequest.constructor | dns_tls_packets.py:25-35 | A new request has no send data, no additional records and is marked local when it has no client address. |
| Client.ClientRequest.Parse | dns_tls_packets.py:45-81 | Which fields a packet sets, on success and on each error, and that send data is untouched. |
| Client.ClientRequest.GenerateDnsQuery | dns_tls_packets.py:112-131 | The query is built once; a second call and a packing failure leave the send data as it was. |
| Client.ClientRequest.GenerateCachedResponse | dns_tls_packets.py:83-100 | The replayed reply is built once, from the cached records with the time left. |
| Client.ClientRequest.GenerateNegativeResponse | dns_tls_packets.py:102-110 | The NXDOMAIN reply is built unless send data exists. |
| Client.NegativeReplyReads | dns_tls_packets.py:102-110 | The client reads its own ID and question, NXDOMAIN, its recursion and checking bits and no records. |
| Client.CachedReplyReads | dns_tls_packets.py:83-100 | The client reads its own ID and question and the number of replayed records. |
| Upstream.QueryRoundTrip | dns_tls_packets.py:112-131 | For ASCII labels without dots the resolver reads back ID, flags, name, type and class 1 and exactly the sanitised OPT record; the length prefix is right and the message fills 128-byte blocks. |
| Upstream.QueryFits | dns_tls_packets.py:119-131 | Any query, whatever its name and options, can be built exactly when its name can be written and its padded length fits the 16-bit prefix. |
| Upstream.QueryPadded | dns_tls_packets.py:119-131 | Every query that is built, for any name, has the right length prefix and fills whole 128-byte blocks; behind its question stands the sanitised OPT record, its UDP size, flags and options as sent for the client, ending in less than 128 bytes of padding, the least that fills the blocks. |
| Upstream.NameForwarded | dns_tls_packets.py:72-79 | The client's name goes upstream byte for byte exactly when its labels are ASCII and hold no dot. |
| Replay.CachedSubsequence | dns_tls_packets.py:234-238 | The cached list is a subsequence of the parsed records in wire order: all CNAME and AAAA records, and an A record exactly when fewer than three were cached before it, so A records stand in the first three places only. |
| Replay.CachedTtl | dns_tls_packets.py:228-249 | The cached TTL is the clamped TTL of the last A, CNAME or AAAA record parsed, cached or not, in 300 to 3600. |
| Replay.CacheEntryOf | dns_tls_packets.py:234-251 | There is a cache entry exactly when a record of type 1, 5 or 28 was parsed; its TTL is the nearest of 300 to 3600 to that of the last such record, it expires that many seconds later, and it holds the picked records, each with its own nearest TTL and otherwise as it came. |
| Replay.ReplayAligns | dns_tls_packets.py:83-100 | If the leading records were all cached and the question bytes are equal, the replayed reply has the forwarded one's bytes over question and those records except in their TTL fields. |
| Replay.ReplayedNames | dns_tls_packets.py:93-98 | What a name of the forwarded reply expands to, read from those shared bytes only, it expands to in the replayed reply too. |
| Replay.LeadingTargetKept | dns_tls_packets.py:83-100 | For any response: a name in a cached record, owner or in the rdata, moved or not, keeps its expansion when it has no pointer, or one to a name that is read from the question and leading cached records, outside TTL fields. |
| Replay.PointsToItself | dns_tls_packets.py:93-98 | For any response: when the first uncached record stands in front of a cached one whose owner points to the former's owner, the latter moves to the very place it points to, and in every replay its owner never comes to an end. |
| Replay.ReplayMisreadsName | dns_tls_packets.py:234-238 | A concrete well-formed message whose first record is not cached: the owner `b` of its address record is read as the root in every replayed reply. |
| Compression.TightKeepsNames | dns_tls_packets.py:83-100 | A message whose pointers name prior names keeps, in every replay, the owner names and all names in the rdata of its cached records, when no uncached record stands in front of a cached one at an offset below 16384. |
| Compression.ReplayConditionIsExact | dns_tls_packets.py:83-100 | That condition is exact: it holds exactly when replays keep the names of all messages with pointers to prior names that share question, record types and the records in front of the gap. |
| Compression.SignedLayoutLosesNames | dns_tls_packets.py:234-238 | The concrete message has pointers to prior names and a gap in reach, so its layout does lose names. |
| Frames.RecvHandler.OnChunk | dns_tls_protocols.py:383-421 | One chunk: the frames it completes are delivered, the rest is kept, and a length below 12 closes the connection. |
| Frames.ChunkingIrrelevant | dns_tls_protocols.py:379-421 | The delivered frames are those of the concatenated bytes, however they were split. |
| Frames.MessagesDelivered | dns_tls_protocols.py:400-421 | Length-prefixed messages of 12 to 65535 bytes are delivered in order, all but exactly those whose first two bytes are the keepalive ID 69; a length below 12 or a cut-off message ends delivery. The connection closes at a length below 12 and at the end of the stream, not otherwise. |
| Frames.EveryStreamSplits | dns_tls_protocols.py:400-421 | Every byte stream is some such messages and such an end. |
| Cache.DnsCache.AddRecord | dns_tls_relay.py:613-617 | An add replaces the record and puts its expiry into the heap. |
| Cache.DnsCache.Search | dns_tls_relay.py:589-625 | The time left, capped at 3600, with the records, or a miss for the root, absent and expired names. |
| Cache.DnsCache.HeapPop | dns_tls_relay.py:685 | A least entry is removed. |
| Cache.DnsCache.AutoClearCache | dns_tls_relay.py:680-688 | A sweep leaves exactly the records that expire later, and exactly the heap entries that do, despite stale and duplicate entries. |
| Cache.DnsCache.AddNegativeName | dns_tls_relay.py:627-633 | A name is entered for 30 seconds. |
| Cache.DnsCache.IsNegative | dns_tls_relay.py:637-649 | Whether the name is still entered; an expired entry is dropped. |
| Cache.DnsCache.AutoClearNegative | dns_tls_relay.py:691-696 | A sweep leaves exactly the names that have not expired. |
| Cache.SweepsUnobservable | dns_tls_relay.py:589-625 | Under any interleaving of adds and sweeps a search answers what the last add alone gives. |
| Cache.NegativeForThirtySeconds | dns_tls_relay.py:627-649 | A name counts as nonexistent for exactly 30 seconds after it was last entered, whatever was checked or swept. |
| Cache.ServedTtlCountsDown | dns_tls_relay.py:599-607 | A cached answer is served with its clamped TTL minus the whole seconds passed, until that reaches zero. |
| Limiter.RateLimiter.AllowQuery | dns_tls_relay.py:40-51 | The bucket is refilled, capped and charged, and the answer says whether a whole token was there. |
| Limiter.RateLimiter.CleanupStale | dns_tls_relay.py:53-59 | Exactly the buckets idle for more than a minute are evicted. |
| Limiter.TokensInBounds | dns_tls_relay.py:40-51 | Tokens stay between zero and the burst in every run. |
| Limiter.WindowBound | dns_tls_relay.py:33-59 | When a minute fills a bucket, a client gets in any window at most the burst plus what the window earns, evictions included. |
| Limiter.CleanupUnobservable | dns_tls_relay.py:53-59 | Then evictions change no answer of any run. |
| Limiter.GrantedExactly | dns_tls_relay.py:33-59 | When a minute fills a bucket, a query is granted in any run, evictions included, exactly when one more grant keeps every window up to now within the burst plus what the window earns. |
| Limiter.CleanupConditionIsExact | dns_tls_relay.py:33-59 | Both hold for all runs exactly when 60 times the rate is at least the burst. |
| WorkQueue.NoLostWakeup | advanced_tools.py:174-194 | A worker that waits beside a nonempty queue has its wakeup set or about to be set; the handled jobs are the first ones added, in order and once each. |
| WorkQueue.QuiescentIsDone | advanced_tools.py:174-194 | In every quiescent state all added jobs were handled once, in append order, whichever of them took the path through the exception handler. |
| WorkQueue.EveryJobIsHandled | advanced_tools.py:174-194 | Once appends stop, every run comes to rest within a bounded number of steps, with all added jobs handled. |
| Requests.RequestMap.GetUniqueId | dns_tls_relay.py:431-440 | The first free of 100 draws is reserved; none is when all are taken. |
| Requests.RequestMap.FillEntry | dns_tls_relay.py:426-427 | The query is stored under its ID. |
| Requests.RequestMap.CleanOrphanedIds | dns_tls_relay.py:444-450 | Exactly the entries older than 30 seconds are purged. |
| Requests.RequestMap.Responder | dns_tls_relay.py:455-486 | A response pops the entry under its ID. With a query there and a response that can be rewritten for it, a client gets the rewritten bytes, its name is entered as nonexistent for rcode 3, and the cache entry is returned; otherwise nothing of this happens. |
| Requests.RespondSends | dns_tls_relay.py:455-486 | The step adds exactly one reply, with the rewritten bytes, when the entry is filled by a client and the response can be rewritten, and none otherwise. |
| Requests.MessageForwarded | dns_tls_relay.py:470-481 | A well-formed message answering a filled client entry is forwarded as the same message with the client's ID and clamped TTLs. |
| Requests.LocalReplySends | dns_tls_relay.py:342-407 | The replies from negative and record cache carry the client's ID, recursion and checking bits, question, response code and the records with the time left. |
| Requests.EntriesStayThirtySeconds | dns_tls_relay.py:444-450 | A purge keeps exactly the entries of at most 30 seconds and those stamped zero. |
| Requests.EntriesAreStamped | dns_tls_relay.py:426-440 | Reserving and filling stamp the entry with the clock, and only filling stores the query. |
| Requests.AtMostOneReply | dns_tls_relay.py:342-486 | In every interleaving no datagram gets two replies, whatever the path; each reply carries the client's own ID; table IDs stay in 70 to 65534. |
| Requests.ResponsesMatch | dns_tls_relay.py:409-481 | Each forwarded response answers the query of the request it goes to, when no ID is reserved again while a query under it is unsent or may still be answered, except for top-domain refreshes while no client holds the ID unfilled. |
| Requests.ReuseConditionIsExact | dns_tls_relay.py:409-481 | After any careful run, reserving an ID meets that condition exactly when all careful continuations forward right responses only; where it does not, one goes astray even if no ID is reserved any more. |
| Requests.LateResponseGoesAstray | dns_tls_relay.py:431-481 | A concrete run in which an ID is reused after the purge and a late response reaches the wrong request. |
| Ranking.DomainRanking.NoteLookup | dns_tls_relay.py:659-661 | A lookup adds one to both scores. |
| Ranking.DecayCounter | dns_tls_relay.py:725-737 | Every score is decayed and those below the bar are dropped. |
| Ranking.MostCommonOf | dns_tls_relay.py:743 | Any selection of the at most 20 best, best first. |
| Ranking.DomainRanking.RankTopDomains | dns_tls_relay.py:719-753 | A ranking cycle: the ranking is the prefix of the 20 best with at least a tenth of the leader's score, and both counters, rate and top set are updated. |
| Ranking.RankedBy | dns_tls_relay.py:724-741 | The score a domain is ranked by: burst score plus lookups, decayed by the rate and dropped below 0.5, and stability score plus lookups, decayed by 0.95 and dropped below 1. |
| Ranking.QualifyingCut | dns_tls_relay.py:745-749 | For any choice among ties exactly the ranked domains with at least a tenth of the leader's score qualify, and they are a prefix. |
| Ranking.CountReversed | dns_tls_relay.py:794-796 | The loop over the reversed ranking gives every domain its place counted from the end. |
| Ranking.BoostRanks | dns_tls_relay.py:798-800 | The loop over the ranking gives every domain the boost of its rank. |
| Ranking.DomainRanking.LoadTopDomains | dns_tls_relay.py:787-800 | The counters are seeded from the order of a persisted ranking. |
| Ranking.SeedsByPlace | dns_tls_relay.py:793-800 | Each loaded domain gets its place counted from the end, and a boost of two for the first place and one for the others; no other domain has a score. |
| Ranking.Churn | dns_tls_relay.py:764-770 | Churn is the share of the domains of either set that are in one only. |
| Ranking.First | dns_tls_relay.py:761-762 | The alphabetically first five: no domain left out stands before one taken. |
| Ranking.ChurnWeights | dns_tls_relay.py:772-775 | Churn behind the first five moves the target by at most 0.12; with every domain replaced the target is 0.5. |
| Ranking.RateInBounds | dns_tls_relay.py:755-775 | The adaptive rate stays in 0.1 to 0.5 in every run. |
| Ranking.StableRateHalves | dns_tls_relay.py:774-775 | Each cycle with an unchanged nonempty top set halves the distance of the rate to 0.1. |
| Ranking.ScoresAreBounded | dns_tls_relay.py:724-737 | With at most L lookups of a domain a cycle, its burst score after each ranking is at most L and its stability score at most 19 L. |
| Ranking.RestartKeepsOrder | dns_tls_relay.py:787-800 | A persisted ranking of any length, loaded and ranked once without lookups, gives at most 20 domains: a prefix of it as a set, in the same order except that its last two may swap, however ties are broken. These are the places with at least a tenth of the first one's score, so all of a ranking of at most five. |

## Left out

- Sockets, TLS, epoll, the thread pool, the metrics server, the command line, YAML, logging, signals and the JSON file: input and output.
- The provider pool, reachability probing, `tls_up` and latency averages: network outcomes decide them.
- DNSSEC validation, which the resolver does; only the DO and CD bits are in the model.
- `_is_filtered` and `note_lookup`'s use of it: lookups and negative entries in the model are those that pass the filter.
- `generate_local_query`: a local request is one marked as a top domain; its hardcoded type and the keepalive query are not modelled.
- Texts are sequences of code points below 256, which is what the parser's latin-1 decoding yields; configured names with other characters are not modelled.
- Float rounding and clock jumps: clock readings, tokens and scores are reals, `allow` takes one clock reading, and readings used by later answers do not lie before earlier ones.
- The array order inside `heapq`: the heap is a multiset whose pop removes any least entry.
- Domains in the ranking are numbers that stand for their alphabetical places, and the persisted file is the list of its names.
- `relay_queue`, and the threads around the request table, are step systems on values; aliasing between threads is not modelled.
- The failure of `close()` after an invalid frame length: the connection counts as closed.
- ReplayedNames: one direction, as it stands for any bytes; `Compression.ReplayConditionIsExact` has both, for messages.
- PointerFreeQuestion: one direction, as it speaks of a single packet; `QuestionReadRight` has both, over all packets.
- QuestionReadRight: labels followed by a pointer from offset 24 up to twelve bytes behind the name are set apart; there the shifted reading looks at the name's own bytes, which may make both readings fail alike (`OwnTargetReadRight`).
