# A verified model of the nginx 1.9.2 core library

Dafny models of the parts of nginx's core library that carry the most state and arithmetic, and proofs of what they
promise. `dafny verify dfyconfig.toml` checks everything.

The code that updates its data step by step is modelled by classes and methods with loops; each method is proved against
a specification, and the laws are proved about the specification. Answers of the operating system, of the memory
allocator and of the next output filter are parameters or nondeterministic choices; what is assumed of them is said with
each part. `Common` holds what several parts share. Bytes of text are characters; integers are unbounded, and where the
width of a C type matters (`u_short` sums of buckets, the 64-bit hash, the MD5 counter, 32-bit words) it is written out.

## The parts

**Server names** (`Text`, `HashLayout`, `Wildcards`, `WildcardKeys`, `WildcardOrder`, `WildcardBuild`, `HashKeys`,
`HashCombined`, `Lookups`, `ServerNames`). A flat hash table is a block of bytes in which every store destroys what it
overlaps; `Init` lays out the buckets, `Find` walks them. The wildcard index is a tree of such tables that are linked by pointers with two tag bits. `AddKey` classifies the
patterns and refuses conflicts. The end of the chain is `AddNames`, `Build` and `FindCombined`: after any names have been
added and indexed, a lookup answers like a scan of the names that the index finds, and these are all that were kept
exactly if, in the sorted arrays, keys with equal labels are neighbours at every level (`Grouped`). With different values
this is the exact condition for all lookups to be right (`LookupIff`), and wildcards of characters above the space meet it
(`HostFaithful`). Assumptions: values are not NULL and 4-aligned, the pool hands out growing 16-aligned addresses, names
contain no NUL and are followed by one (line 1043 looks at the byte behind the key), `ngx_uint_t` has 64 bits, and
`ngx_qsort` returns a permutation in which no two keys are in the wrong order (with spaces, ties of `ngx_dns_strcmp` are
not transitive, so that this is more than the comparison itself guarantees).

**Configuration tokens** (`ConfTokens`, `ConfFile`, `ConfLaws`, `ConfRoundTrip`). A character machine over a whole text is
the specification; the tokenizer with its refilled buffer refines it, call after call. Then: what the size of the buffer
can change, which lines are counted, and a round trip from rendered directives back to their words, with any white space
and comments between them and the end of a directive directly behind its last word or not.

**IPv6 text** (`Inet6`, `Inet6Print`, `Inet6Laws`, `Inet6Grammar`). Parser and printer write arrays in place. A `Form` is
a way to write an address: groups, perhaps a gap, perhaps a dotted end whose octets may have leading zeros or no digit.
The parser accepts a text exactly if it is that of an accepted form, perhaps behind one more colon (`ParseIff`), and
answers with the form's value; the printer prints a form that means the address.

**Open-file cache** (`FileCacheState`, `FileCache`). Nodes, the tree (a map from names), the queue, users and open
descriptors; every operation keeps the invariant, and `OpenCachedFile` keeps it if and only if the system's answers
neither race nor clash, each in one particular way. The caller's record is what the stat that settles the matter says, and
what it was told is repeated to later callers for as long as it is valid. The one assumption about the answers is that a
descriptor that is opened was not open before.

**Output chain** (`Bufs`, `ChainWriter`, `OutputState`, `OutputRecord`, `OutputChain`). Buffers lie in a table, chains are sequences of
their numbers. What has been sent, what is on its way and what waits is always what came in; what is handed to the next
filter, with a mark for every special buffer and for the flags at the end of every other buffer, is what came in as well,
each mark once and in its place. Each buffer has one owner, and the pool holds as many buffers as have been counted.
Callers' buffers are distinct and do not have the pool's tag.

**Checksums** (`Crc32`, `Md5Rounds`, `Md5`, `Md5Example`). The tables and the streaming forms against the definitions by
bits and by blocks (section 3.4 of RFC 2083, sections 3.1 to 3.5 of RFC 1321), and the values for "abc".

**Connections and reloading** (`ConnectionPool`, `Sockaddrs`, `Handover`, `SharedZones`, `Cycles`). The free list that is
threaded through the slots, the queue that is drained, oldest mark first, when no slot is free; which sockets and shared zones a new
configuration takes over, what is closed when it succeeds and when it fails.

## Where the code does less than one might think

- `ngx_hash_init` adds up bucket sizes in a `u_short`. The test means "all buckets fit", for all names and all numbers of
  buckets, if and only if the bucket size is below 32776 (`TestExact`). On the "could not build optimal" path a bucket gets
  room for its elements exactly if its aligned size stays below 64 KB (`WidthSuffices`); otherwise `Init` stops with
  `Overrun`.
- `ngx_dns_strcmp` ranks a dot like a space. A wildcard with a space or a control character is accepted, and can stand
  between two wildcards with the same first label. The builder then makes two entries for that label, of which the finder
  sees the first: with `.com`, `.com 0` and `.a.com` the name `a.com` gets the server of `.com` (`SpaceSplits`). A lookup
  can go wrong for some list of wildcards over a set of characters exactly if one of them is not above the space
  (`CharsIff`), and for one list exactly if its sorted keys are not grouped (`LookupIff`).
- A `.x` that is refused because of `*.x` still blocks a later `x` (`RefusedDotBlocks`). `ExactRefused` says exactly when
  an exact name is refused.
- "too long parameter" does not need a long parameter: indentation or a comment that fills the buffer is enough
  (`LongIndent`). `BufferIrrelevant` says exactly when it happens.
- A word that begins with `${` is cut at the brace (`DollarFirst`), although `${` is left alone anywhere else in a word: a
  brace stays in a bare word if and only if it stands behind a dollar that is not the first character, or behind another
  such brace (`BraceRule`).
- The IPv6 parser rejects exactly two addresses that the printer writes, `::255.255.255.255` and
  `::ffff:255.255.255.255` (`RoundTrip`). It ignores a single leading colon (`LeadingColon`), and takes a colon at the end
  behind `::` for a zero group (`Accepts`).
- When a file is renamed between the `stat` of its name and the `open`, so that the open shows the inode the cache already
  holds, the old descriptor is overwritten and stays open (`RaceHappens`); `OpenCachedFile` says exactly when.
- A file is known by its inode number alone. When the name comes to show a directory of another device with the number of
  the open file, the old descriptor is taken for that of the directory; it ends up closed and still in a node, or in two
  nodes (`ClashHappens`). `OpenCachedFile` says exactly when.
- A fragment that does not end its buffer keeps the flags of the memory it is copied to, and memory that comes back to
  `free` keeps the flags of its last use: a flush can be repeated for a buffer that has none (`StaleFlags`). All fragments
  have the right flags as long as no buffer that must be copied has had any, and the last fragment of a buffer always has
  that buffer's flags (`Output`); copying the end of one that has flags
  leaves a pool buffer with flags (`CopyStep`), and a buffer with flags gives some source wrong ones (`FlagsRight`). A
  buffer without data that is not special is dropped with its flags (line 228 of `ngx_output_chain.c`).
- When a reload fails, no socket is lost, but old shared zones that were already replaced stay unmapped, and segments that
  the new configuration got stay mapped. An old zone keeps its segment exactly if no new zone met so far replaces it
  (`OwnedIff`). The old configuration can then hold a zone that is not mapped, and a later reload that replaces the zone
  frees it a second time (`FailedReload`, `ShareZone`); `InitCycle` says nothing of the segments then, and still everything of the
  sockets.

## Model
| member | source | states |
|---|---|---|
| HashLayout.EltSize | nginx-1.9.2/src/core/ngx_hash.c:318-319 | the bytes of an element: a pointer, the length field and the name, rounded up to a multiple of the pointer size |
| HashLayout.SlotIsMod | nginx-1.9.2/src/core/ngx_hash.c:34-35 | the slot reached by taking away the number of buckets is the remainder of the hash |
| HashLayout.ChooseSize | nginx-1.9.2/src/core/ngx_hash.c:394-459 | the chosen number of buckets is the least one in range that passes the test, or the maximum when none does |
| HashLayout.StartMisses | nginx-1.9.2/src/core/ngx_hash.c:394-403 | with fewer buckets than the search begins with the names cannot fit, unless the limit is large for them |
| HashLayout.TryPass | nginx-1.9.2/src/core/ngx_hash.c:417-448 | the loop over the names accepts a size exactly if every 16-bit running sum passes the comparison |
| HashLayout.PassMeansFits | nginx-1.9.2/src/core/ngx_hash.c:415-449 | for bucket sizes below 32776 the 16-bit test passes if and only if every bucket and its terminator fit |
| HashLayout.TestExact | nginx-1.9.2/src/core/ngx_hash.c:415-449 | the test means that all buckets fit, for all names and sizes, if and only if the bucket size is below 32776 |
| HashLayout.ChosenIsLeast | nginx-1.9.2/src/core/ngx_hash.c:394-459 | below 32776 the chosen size is the least one in range for which all buckets fit, or the maximum when there is none |
| HashLayout.WidthSuffices | nginx-1.9.2/src/core/ngx_hash.c:463-494 | a bucket gets room for its elements and terminator if and only if its aligned size stays below 64 KB |
| HashLayout.FoundLayoutFits | nginx-1.9.2/src/core/ngx_hash.c:415-494 | a size that passed the test leads to a layout in which every bucket has room |
| HashLayout.NoOverlap | nginx-1.9.2/src/core/ngx_hash.c:529-577 | no two elements overlap |
| HashLayout.EndsApart | nginx-1.9.2/src/core/ngx_hash.c:529-577 | no element overlaps the terminator of a bucket |
| HashLayout.EltInside | nginx-1.9.2/src/core/ngx_hash.c:529-577 | every element lies inside its bucket, before the terminator, and the bucket inside the block |
| HashLayout.EndsDistinct | nginx-1.9.2/src/core/ngx_hash.c:567-577 | the terminators of different buckets do not overlap |
| HashLayout.Fill | nginx-1.9.2/src/core/ngx_hash.c:461-582 | the finished block holds every live name at its place and ends every bucket in use, whatever was in the memory |
| HashLayout.Init | nginx-1.9.2/src/core/ngx_hash.c:359-615 | fails exactly for a name that does not fit or without memory; otherwise lays out the table of the chosen size, which below 32776 is the least that fits, and then never overruns |
| HashLayout.Stride | nginx-1.9.2/src/core/ngx_hash.c:56-57 | the step of the lookup from one element to the next is the size with which it was laid out |
| HashLayout.Find | nginx-1.9.2/src/core/ngx_hash.c:25-62 | walks the chain of the bucket of the hash and answers with the first element of that name |
| HashLayout.FindIsScan | nginx-1.9.2/src/core/ngx_hash.c:25-62 | on a laid-out table the lookup gives the value of the first name in the input that equals the query |
| HashLayout.FirstNull | nginx-1.9.2/src/core/ngx_hash.c:34-61 | the answer is NULL if and only if no live name folds to the query |
| Wildcards.TagRoundTrip | nginx-1.9.2/src/core/ngx_hash.c:771-785 | the tag bits written by the builder are read back by the finders, and the pointer is unharmed |
| Wildcards.BestUnique | nginx-1.9.2/src/core/ngx_hash.c:74-170 | there is only one longest matching pattern, so the answer of a search is determined |
| Wildcards.ReadEntry | nginx-1.9.2/src/core/ngx_hash.c:115-166 | what each of the tags 00, 01, 10 and 11 says about the patterns at and below a label |
| Wildcards.FindHead | nginx-1.9.2/src/core/ngx_hash.c:74-170 | the value of the head pattern with most labels that matches, else the table's own value |
| Wildcards.FindTail | nginx-1.9.2/src/core/ngx_hash.c:207-274 | the value of the tail pattern with most labels that matches and leaves a further label, else the table's own value |
| Wildcards.AnswerBelow | nginx-1.9.2/src/core/ngx_hash.c:142-152 | when a deeper branch has no answer the value at the label is the best one |
| WildcardOrder.Contiguous | nginx-1.9.2/src/core/ngx_string.c:928-955 | of names of characters above the space, those between two with the same first label have it too |
| WildcardOrder.SplitGroup | nginx-1.9.2/src/core/ngx_string.c:928-955 | a character that is not above the space lets a name come between two with the same first label |
| WildcardOrder.HostGrouped | nginx-1.9.2/src/core/ngx_string.c:928-955 | sorted keys of characters above the space are grouped at every level |
| WildcardKeys.SameGroupIsSameHead | nginx-1.9.2/src/core/ngx_hash.c:730-740 | the comparison of prefixes keeps a later key in the group if and only if it has the same first label |
| WildcardKeys.SeenLost | nginx-1.9.2/src/core/ngx_hash.c:663-756 | the keys of a second group for a label are not found |
| WildcardKeys.FoundBelow | nginx-1.9.2/src/core/ngx_hash.c:698-756 | in the first group for its label, a key is found if and only if its rest is found in the table below |
| WildcardBuild.TakeGroup | nginx-1.9.2/src/core/ngx_hash.c:698-756 | collects exactly the keys up to the next one with another first label, cut behind it, for any sorted keys |
| WildcardBuild.LeafEntry | nginx-1.9.2/src/core/ngx_hash.c:783-785 | the word stored for a label with nothing below it is the prescribed one |
| WildcardBuild.InnerEntry | nginx-1.9.2/src/core/ngx_hash.c:759-781 | the word stored for a label with a table below it is the prescribed one |
| WildcardBuild.BuildGroup | nginx-1.9.2/src/core/ngx_hash.c:663-786 | one group yields an entry; the word of the first group for a label stands for all found patterns at and below it |
| WildcardBuild.WildcardInit | nginx-1.9.2/src/core/ngx_hash.c:635-797 | the tree of tables indexes exactly the given patterns that are found, whether or not equal labels are neighbours; tables made before stay as they are; it succeeds when there is memory and room |
| HashKeys.ScanStars | nginx-1.9.2/src/core/ngx_hash.c:1025-1047 | refuses a key exactly if it has two stars or two dots in a row, and says whether it has a star |
| HashKeys.FormIff | nginx-1.9.2/src/core/ngx_hash.c:1025-1070 | which texts are exact names, which are head patterns of either form and which are tail patterns, each as an equivalence |
| HashKeys.ReverseInto | nginx-1.9.2/src/core/ngx_hash.c:1188-1222 | the stored head key is the reversal of the labels, with a dot behind it exactly for the starred form, and ends with NUL |
| HashKeys.RevLabels | nginx-1.9.2/src/core/ngx_hash.c:1198-1216 | the labels of the reversed key are the labels of the name from right to left |
| HashKeys.RevLength | nginx-1.9.2/src/core/ngx_hash.c:1189-1193 | the reversal takes as many bytes as the name |
| Text.FoldsLetters | nginx-1.9.2/src/core/ngx_string.h:82 | the capital letters go to the small ones, one by one, and every other character stays |
| HashKeys.StrLow | nginx-1.9.2/src/core/ngx_hash.c:862-877 | folds a range in place and returns the hash of the folded text |
| HashKeys.TableLookup | nginx-1.9.2/src/core/ngx_hash.c:1086-1100 | a name is in the slot of its hash if and only if it was filed, so that looking in one slot finds every conflict |
| HashKeys.HashKeysArrays.AddKey | nginx-1.9.2/src/core/ngx_hash.c:1010-1314 | classifies, folds and files the pattern, or refuses it, and keeps the arrays and conflict tables in step |
| HashKeys.HashKeysArrays.AddHeadForm | nginx-1.9.2/src/core/ngx_hash.c:1143-1300 | a head pattern is refused when its name is taken; the dotted form also takes the exact name, even when it is refused afterwards |
| HashCombined.RunClean | nginx-1.9.2/src/core/ngx_hash.c:1072-1300 | after any calls no name is stored twice, nor `x` with `.x`, nor `.x` with `*.x`, in either order |
| HashCombined.ExactRefused | nginx-1.9.2/src/core/ngx_hash.c:1086-1184 | an exact name is refused if and only if an earlier call asked for `x` or `.x` |
| HashCombined.RefusedDotBlocks | nginx-1.9.2/src/core/ngx_hash.c:1143-1253 | a refused `.x` blocks a later `x` although nothing named x is stored |
| HashCombined.LabelsPrefix | nginx-1.9.2/src/core/ngx_hash.c:207-274 | a name begins with the labels of another if and only if it is equal or goes on with a dot |
| HashCombined.RLabelsSuffix | nginx-1.9.2/src/core/ngx_hash.c:74-170 | a name ends with the labels of another if and only if it is equal or has a dot before it |
| HashCombined.ClassifyGood | nginx-1.9.2/src/core/ngx_hash.c:1025-1070 | every name that is not declined is fit to be stored |
| HashCombined.HeadKeysOk | nginx-1.9.2/src/http/ngx_http.c:2110-2126 | the collected head keys, sorted, meet everything the builder relies on |
| HashCombined.TailKeysOk | nginx-1.9.2/src/http/ngx_http.c:2128-2144 | the collected tail keys, sorted, meet everything the builder relies on |
| HashCombined.HeadAnswer | nginx-1.9.2/src/core/ngx_hash.c:286-297 | the best pattern of the head index is the longest head wildcard that covers the name |
| HashCombined.TailAnswer | nginx-1.9.2/src/core/ngx_hash.c:299-309 | the best pattern of the tail index is the longest tail wildcard that covers the name |
| HashCombined.ScanUnique | nginx-1.9.2/src/core/ngx_hash.c:277-312 | the scan that the lookup must agree with has one answer |
| HashCombined.Build | nginx-1.9.2/src/http/ngx_http.c:2095-2144 | the three tables index the names that were kept, the wildcard tables those of them that are found; it succeeds when there is memory and room |
| HashCombined.FindCombined | nginx-1.9.2/src/core/ngx_hash.c:277-312 | answers like a scan of the found names: the exact one, else the longest head wildcard, else the longest tail wildcard, else nothing; and like a scan of all names when the keys are grouped |
| Lookups.LookupIff | nginx-1.9.2/src/core/ngx_hash.c:277-312 | with different values, every lookup answers like a scan of all names if and only if keys with equal labels are neighbours at every level |
| Lookups.HostFaithful | nginx-1.9.2/src/core/ngx_hash.c:277-312 | with wildcards of characters above the space every lookup answers like a scan of all names |
| Lookups.NeedsEntry | nginx-1.9.2/src/core/ngx_hash.c:277-312 | for every stored wildcard there is a name for which the scan answers its value, so that losing one matters |
| Lookups.SpaceSplits | nginx-1.9.2/src/http/ngx_http.c:2110-2126 | for each character not above the space: three wildcards that are accepted, a sorted order of their keys, and a name for which the lookup gives the value of another wildcard than the scan |
| Lookups.CharsIff | nginx-1.9.2/src/core/ngx_string.c:928-955 | lookups are right for all lists of wildcards over a set of characters if and only if all of them are above the space |
| ServerNames.RunGood | nginx-1.9.2/src/http/ngx_http.c:2060-2093 | whatever names are tried in whatever order, those kept are fit to be indexed |
| ServerNames.AcceptedAreKept | nginx-1.9.2/src/http/ngx_http.c:2060-2093 | when no name is refused, the names that are indexed are all of them, in order |
| ServerNames.FreshAccepted | nginx-1.9.2/src/core/ngx_hash.c:1072-1300 | a well-formed pattern that conflicts with none tried before is accepted |
| ServerNames.Filed | nginx-1.9.2/src/http/ngx_http.c:2060-2093 | a kept name of each form is on record in lower case, whatever the case in which it was written |
| ServerNames.AnyCase | nginx-1.9.2/src/core/ngx_hash.c:277-312 | a kept exact name, written in any case, answers a query for its letters in lower case, whatever else is in the index |
| ServerNames.AnyCaseDot | nginx-1.9.2/src/core/ngx_hash.c:277-312 | so does a kept name with a leading dot for the name behind the dot |
| ServerNames.AddNames | nginx-1.9.2/src/http/ngx_http.c:2054-2093 | fails exactly for a malformed name, leaves out those in conflict, and keeps a list fit to be indexed |
| ConfTokens.StepTidy | nginx-1.9.2/src/core/ngx_conf_file.c:747-846 | after every character, `quoted` agrees with the pairing of backslashes in the open word, so no word ends on an unpaired one |
| ConfFile.ConfFile.Open | nginx-1.9.2/src/core/ngx_conf_file.c:208-223 | a file is read from its first line through an empty buffer |
| ConfFile.ConfFile.Param | nginx-1.9.2/src/core/ngx_conf_file.c:64-100 | the single-buffer form: the buffer is the whole text |
| ConfFile.ConfFile.Refill | nginx-1.9.2/src/core/ngx_conf_file.c:686-722 | the unfinished word moves to the front and new bytes follow it; the position in the text stays |
| ConfFile.ConfFile.Word | nginx-1.9.2/src/core/ngx_conf_file.c:880-917 | the copy is the token with its escapes resolved, without looking outside the token or writing beyond its length |
| ConfFile.ConfFile.Take | nginx-1.9.2/src/core/ngx_conf_file.c:727-876 | what one character does to the flags, the word and the line counter |
| ConfFile.ConfFile.ReadToken | nginx-1.9.2/src/core/ngx_conf_file.c:602-931 | for every buffer size, words, code, line and position are those of the machine on the whole text; at the end the dump is the text |
| ConfFile.ConfFile.ReadAll | nginx-1.9.2/src/core/ngx_conf_file.c:270-310 | call after call, the results are those of the machine on the whole text |
| ConfLaws.RunCap | nginx-1.9.2/src/core/ngx_conf_file.c:663-684 | from any state, the machine gives up exactly if it looks back as far as the buffer is long, and otherwise ends as without a limit |
| ConfLaws.BufferIrrelevant | nginx-1.9.2/src/core/ngx_conf_file.c:638-725 | one call gives the same as on one whole buffer, except that it gives up exactly if it looks back too far |
| ConfLaws.CallsBuffer | nginx-1.9.2/src/core/ngx_conf_file.c:638-725 | call after call the results are the same, and only the last call can give up |
| ConfLaws.WholeFits | nginx-1.9.2/src/core/ngx_conf_file.c:64-100 | the single-buffer form never reports a parameter that is too long |
| ConfLaws.LongIndent | nginx-1.9.2/src/core/ngx_conf_file.c:663-684 | indentation that fills the buffer is reported as a parameter that is too long |
| ConfLaws.LineCount | nginx-1.9.2/src/core/ngx_conf_file.c:729-737 | a call moves the line counter by the line ends it passes, and directives make progress |
| ConfLaws.DoneIffBlank | nginx-1.9.2/src/core/ngx_conf_file.c:642-661 | the end of the file is accepted if and only if only white space and comments are left |
| ConfLaws.DollarFirst | nginx-1.9.2/src/core/ngx_conf_file.c:783-872 | a word that begins with `${` ends before the brace, which opens a block |
| ConfRoundTrip.BraceRule | nginx-1.9.2/src/core/ngx_conf_file.c:783-872 | a brace behind a bare word stays in it if and only if it belongs to a variable; otherwise the word ends and a block opens |
| ConfRoundTrip.UnescapeEscape | nginx-1.9.2/src/core/ngx_conf_file.c:885-915 | for any word, resolving the escapes gives back what was escaped, also tabs and line ends that were written as letters |
| ConfRoundTrip.TokenOfItem | nginx-1.9.2/src/core/ngx_conf_file.c:727-930 | a rendered directive, in any mixture of bare and quoted words, with white space and comments between them, its end behind a gap or directly behind the last word, is read back as its words and its kind |
| ConfRoundTrip.Misplaced | nginx-1.9.2/src/core/ngx_conf_file.c:642-800 | an end without words, a closing brace behind words, and words without an end are reported as what they are |
| ConfRoundTrip.LongQuote | nginx-1.9.2/src/core/ngx_conf_file.c:663-684 | a quotation that fills the buffer is reported by its mark |
| ConfRoundTrip.CallsOfItems | nginx-1.9.2/src/core/ngx_conf_file.c:602-931 | a rendered configuration is read back item by item through every buffer that holds its longest item |
| ConfRoundTrip.WrittenIsRead | nginx-1.9.2/src/core/ngx_conf_file.c:602-931 | a configuration that has been written is read back item by item, and then the file ends |
| Inet6.InetAddr | nginx-1.9.2/src/core/ngx_inet.c:17-57 | the loop over a dotted address computes the reading defined by recursion over its characters |
| Inet6.DigitValues | nginx-1.9.2/src/core/ngx_inet.c:127-146 | the hexadecimal digits are the sixteen of either case, with their values |
| Inet6.FillGap | nginx-1.9.2/src/core/ngx_inet.c:156-165 | the bytes behind the double colon end up at the end of the address and the gap is zero |
| Inet6.Inet6Addr | nginx-1.9.2/src/core/ngx_inet.c:62-175 | parses in place as `Parse` says; no text makes it write beyond the sixteen bytes |
| Inet6Print.GapIs | nginx-1.9.2/src/core/ngx_inet.c:300-326 | the elided run is the leftmost of the longest runs of at least two zero words (sections 4.2.2 and 4.2.3 of RFC 5952) |
| Inet6Print.GapUnique | nginx-1.9.2/src/core/ngx_inet.c:300-326 | there is only one such run |
| Inet6Print.FindGap | nginx-1.9.2/src/core/ngx_inet.c:300-326 | the single pass over the words finds that run |
| Inet6Print.PrintFits | nginx-1.9.2/src/core/ngx_inet.c:289-363 | every printed address fits the buffer that callers must bring |
| Inet6Print.HexIs | nginx-1.9.2/src/core/ngx_inet.c:351 | a printed group is in lower case and has no zero in front |
| Inet6Print.DecIs | nginx-1.9.2/src/core/ngx_inet.c:358-360 | a printed octet has no zero in front |
| Inet6Print.Inet6Ntop | nginx-1.9.2/src/core/ngx_inet.c:289-363 | prints the address; with a shorter buffer nothing is written |
| Inet6Laws.ParseForm | nginx-1.9.2/src/core/ngx_inet.c:62-175 | the exact answer for every form of an address, with octets as the parser takes them: its value, or a failure if and only if the form is not accepted |
| Inet6Grammar.QuadShape | nginx-1.9.2/src/core/ngx_inet.c:17-57 | whatever is accepted as a dotted address is four octets with dots between them |
| Inet6Grammar.ParseShape | nginx-1.9.2/src/core/ngx_inet.c:62-175 | every accepted text is written as a form, perhaps behind one more colon |
| Inet6Grammar.ParseIff | nginx-1.9.2/src/core/ngx_inet.c:62-175 | a text is accepted if and only if it is written as an accepted form, and the answer is the value of the form |
| Inet6Laws.DottedQuad | nginx-1.9.2/src/core/ngx_inet.c:17-57 | a dotted address is read as its four octets, also with leading zeros or without digits |
| Inet6Laws.PrintIsForm | nginx-1.9.2/src/core/ngx_inet.c:328-362 | the printed text is the text of the form with the longest zero run elided |
| Inet6Laws.OnesPrinted | nginx-1.9.2/src/core/ngx_inet.c:118-121 | the two addresses that are printed with a dotted 255.255.255.255 |
| Inet6Laws.RoundTrip | nginx-1.9.2/src/core/ngx_inet.c:62-363 | the parser gives back every printed address, except those two, for which it fails |
| Inet6Laws.LeadingColon | nginx-1.9.2/src/core/ngx_inet.c:80-83 | a single colon in front of a text changes nothing |
| FileCacheState.AdoptExact | nginx-1.9.2/src/core/ngx_open_file_cache.c:436-457 | giving a node a descriptor loses one if and only if the node still had another |
| FileCacheState.UnlinkKeeps | nginx-1.9.2/src/core/ngx_open_file_cache.c:1209-1213 | taking a node out of the tree keeps the invariant |
| FileCacheState.CloseFdKeeps | nginx-1.9.2/src/core/ngx_open_file_cache.c:1115-1127 | a descriptor is closed only while it is open and nobody uses its node, and only that one |
| FileCacheState.FreeKeeps | nginx-1.9.2/src/core/ngx_open_file_cache.c:1129-1136 | a node is freed only without users and without a descriptor |
| FileCacheState.ReleaseKeeps | nginx-1.9.2/src/core/ngx_open_file_cache.c:1073-1081 | the handler of a user takes one from the count of a node that still exists |
| FileCacheState.InsertKeeps | nginx-1.9.2/src/core/ngx_open_file_cache.c:403-428 | a new node makes no name occur twice |
| FileCacheState.OrderedWithout | nginx-1.9.2/src/core/ngx_open_file_cache.c:224 | the queue stays ordered by last use when a node is taken out |
| FileCacheState.OrderedLater | nginx-1.9.2/src/core/ngx_open_file_cache.c:463-469 | an order by last use holds at every later time, so that calls can follow one another |
| FileCache.FileCache.constructor | nginx-1.9.2/src/core/ngx_open_file_cache.c:57-85 | an empty cache satisfies the invariant |
| FileCache.FileCache.ExpireLast | nginx-1.9.2/src/core/ngx_open_file_cache.c:1189-1225 | the least recently used node leaves tree and queue; users keep theirs |
| FileCache.FileCache.Expire | nginx-1.9.2/src/core/ngx_open_file_cache.c:1165-1227 | by force the least recently used node goes; without force at most two, all idle for longer than `inactive` |
| FileCache.FileCache.CloseDetached | nginx-1.9.2/src/core/ngx_open_file_cache.c:1112-1136 | a detached node is closed and freed if and only if it has no users |
| FileCache.FileCache.CloseCachedFile | nginx-1.9.2/src/core/ngx_open_file_cache.c:1089-1137 | a node in the cache goes to the front; its descriptor is closed exactly without users and below `min_uses` |
| FileCache.FileCache.Cleanup | nginx-1.9.2/src/core/ngx_open_file_cache.c:1073-1085 | one user less; every other user keeps node and descriptor, and the queue stays ordered |
| FileCache.FileCache.OpenAndStat | nginx-1.9.2/src/core/ngx_open_file_cache.c:886-994 | which of the answers of the system decide, and which descriptor is open afterwards |
| FileCache.SpecTells | nginx-1.9.2/src/core/ngx_open_file_cache.c:886-994 | which stat settles the matter, that all of it is copied, and which error is reported |
| FileCache.FileCache.Reopen | nginx-1.9.2/src/core/ngx_open_file_cache.c:226-237 | a node whose file had been closed is opened again, or taken out when that fails |
| FileCache.FileCache.Hit | nginx-1.9.2/src/core/ngx_open_file_cache.c:247-289 | answers from memory and adds a user for a file |
| FileCache.FileCache.Retest | nginx-1.9.2/src/core/ngx_open_file_cache.c:291-387 | asks the system; the node is renewed, or replaced when the name shows another file; keeps the invariant if and only if the answers neither race nor clash |
| FileCache.FileCache.Create | nginx-1.9.2/src/core/ngx_open_file_cache.c:397-428 | a full cache first gives up its least recently used node, so that `current` stays within the limit |
| FileCache.FileCache.OpenCachedFile | nginx-1.9.2/src/core/ngx_open_file_cache.c:147-528 | keeps the invariant if and only if the answers neither race nor clash; when the system is asked, the record tells what the stat that settles it says, or the failing call, and this is recorded with the time; otherwise the record repeats the node; the uses are counted, the caller is, every user keeps node and descriptor, and the queue stays ordered |
| FileCache.SecondCall | nginx-1.9.2/src/core/ngx_open_file_cache.c:247-289 | a second call for the name within `valid` answers what the first one did, a cached error included, whatever the system would say |
| FileCache.LateCall | nginx-1.9.2/src/core/ngx_open_file_cache.c:247-253 | from `valid` on, or when another file is asked for, the system is asked again |
| FileCache.RaceHappens | nginx-1.9.2/src/core/ngx_open_file_cache.c:311-349 | honest answers that lose a descriptor: the invariant holds before and not afterwards |
| FileCache.ClashHappens | nginx-1.9.2/src/core/ngx_open_file_cache.c:311-387 | honest answers after which a node has a descriptor that is closed: the invariant holds before and not afterwards |
| FileCache.RenewInv | nginx-1.9.2/src/core/ngx_open_file_cache.c:434-469 | filling in a node keeps the invariant if and only if it has no other descriptor |
| Bufs.UpdateSent | nginx-1.9.2/src/core/ngx_buf.c:274-317 | exactly the first `sent` bytes are gone, every earlier buffer is empty, nothing else changed |
| Bufs.WholeTotal | nginx-1.9.2/src/core/ngx_buf.h:283-285 | the sizes of the buffers add up to the bytes of the chain |
| Bufs.CoalesceFile | nginx-1.9.2/src/core/ngx_buf.c:232-271 | the longest run of buffers that lie one behind the other in one file, of less than limit and a page |
| Bufs.RangeIsFlow | nginx-1.9.2/src/core/ngx_buf.c:244-266 | that one range of the file holds the bytes of those buffers in order |
| ChainWriter.ChainWriter.Write | nginx-1.9.2/src/core/ngx_output_chain.c:973-1090 | sent bytes and kept bytes are the old ones and the new chain, in order; Ok means that no bytes are kept |
| ChainWriter.ChainWriter.AddChain | nginx-1.9.2/src/core/ngx_output_chain.c:980-1023 | a chain is appended behind what is kept, without its empty buffers |
| ChainWriter.KeptFlow | nginx-1.9.2/src/core/ngx_output_chain.c:985-1005 | leaving out buffers without data leaves the bytes as they are |
| OutputState.CopyKeeps | nginx-1.9.2/src/core/ngx_output_chain.c:305-341 | moving a fragment from the input to a pool buffer keeps all bytes in order and every buffer with one owner |
| OutputState.PassKeeps | nginx-1.9.2/src/core/ngx_output_chain.c:250-262 | passing a buffer on keeps all bytes in order |
| OutputState.SentKeeps | nginx-1.9.2/src/core/ngx_output_chain.c:353-361 | whatever the next filter takes from the front, bytes and owners are kept |
| OutputState.ReturnKeeps | nginx-1.9.2/src/core/ngx_buf.c:188-229 | a busy buffer that is empty becomes free, and is empty there, if it belongs to the pool |
| OutputState.WorkLess | nginx-1.9.2/src/core/ngx_output_chain.c:311-341 | a copied fragment leaves less to do |
| OutputRecord.DropRecord | nginx-1.9.2/src/core/ngx_output_chain.c:228-248 | only buffers without data and without a request are dropped |
| OutputRecord.PassRecord | nginx-1.9.2/src/core/ngx_output_chain.c:250-262 | a buffer that is passed on keeps its bytes, its flags and its place |
| OutputRecord.CopyRecord | nginx-1.9.2/src/core/ngx_output_chain.c:305-341 | a copied fragment and what is left of the buffer say together what the buffer said, its flags once and at the end |
| OutputChain.OutputChain.constructor | nginx-1.9.2/src/core/ngx_output_chain.c:147-170 | an empty chain satisfies the invariant: the pool has as many buffers as are counted, at most `bufs.num`, each with one owner |
| OutputChain.AsIs | nginx-1.9.2/src/core/ngx_output_chain.c:374-479 | when a buffer must be copied; without sendfile one that is passed on is in memory only |
| OutputChain.CopyBuf | nginx-1.9.2/src/core/ngx_output_chain.c:805-969 | the fragment and what is left of the buffer, for memory and for files |
| OutputChain.LoadedIs | nginx-1.9.2/src/core/ngx_output_chain.c:805-969 | the fragment is the first part of the data, as large as the memory allows, at its place in the file if it has one; what is left is the rest, and it is shorter |
| OutputChain.FlagsRight | nginx-1.9.2/src/core/ngx_output_chain.c:858-866 | a free buffer gives every fragment of every source the right flags if and only if it has none itself |
| OutputChain.CopyStep | nginx-1.9.2/src/core/ngx_output_chain.c:305-341 | copying a fragment keeps bytes, owners and the number of pool buffers; a clean pool gives it the right flags, and stays clean unless the end of a buffer with flags has been copied |
| OutputChain.StaleFlags | nginx-1.9.2/src/core/ngx_output_chain.c:858-866 | a flushed buffer after which the first fragment of a buffer without flags asks for a flush |
| OutputChain.OutputChain.AlignFileBuf | nginx-1.9.2/src/core/ngx_output_chain.c:574-634 | a buffer for direct I/O, beside the pool, of all that waits or up to the next aligned offset |
| OutputChain.OutputChain.GetBuf | nginx-1.9.2/src/core/ngx_output_chain.c:640-712 | a new buffer of the pool with its tag, counted, of the configured size or, for a small end of the response, of what waits |
| OutputChain.OutputChain.Acquire | nginx-1.9.2/src/core/ngx_output_chain.c:270-303 | a buffer to copy into; none only when the pool is exhausted |
| OutputChain.OutputChain.FillOut | nginx-1.9.2/src/core/ngx_output_chain.c:219-342 | moves as much as the pool allows, with all bytes and flags in order; something moves unless the pool is exhausted |
| OutputChain.OutputChain.TakeBack | nginx-1.9.2/src/core/ngx_buf.c:188-229 | after taking back, the first busy buffer still holds data |
| OutputChain.OutputChain.Output | nginx-1.9.2/src/core/ngx_output_chain.c:148-363 | terminates, and unless it fails, bytes sent, on their way and waiting are the old ones and the new chain, in order, and so is the record of what is handed down, with every special buffer and all flags once and in place; Ok means nothing waits; a clean pool stays clean and no fragment has flags too many while no buffer that must be copied has flags |
| Crc32.StepXor | nginx-1.9.2/src/core/ngx_crc32.h:20-50 | a step of the shift register is linear |
| Crc32.TakeByteIsEight | nginx-1.9.2/src/core/ngx_crc32.h:38-50 | taking in a byte bit by bit is eight steps on the register with the byte added |
| Crc32.Table16Is | nginx-1.9.2/src/core/ngx_crc32.c:26-31 | every entry of the small table is four steps of its index |
| Crc32.Table256Is | nginx-1.9.2/src/core/ngx_crc32.c:34-99 | every entry of the large table is eight steps of its index |
| Crc32.LongStep | nginx-1.9.2/src/core/ngx_crc32.h:44-46 | one look into the large table takes in a byte |
| Crc32.ShortStep | nginx-1.9.2/src/core/ngx_crc32.h:27-31 | two looks into the small table take in a byte |
| Crc32.Short | nginx-1.9.2/src/core/ngx_crc32.h:20-35 | the small form computes the check defined bit by bit |
| Crc32.Long | nginx-1.9.2/src/core/ngx_crc32.h:38-50 | the large form computes the check defined bit by bit |
| Crc32.RegisterSplit | nginx-1.9.2/src/core/ngx_crc32.h:57-69 | taking in two pieces is taking in their concatenation |
| Crc32.Stream.Update | nginx-1.9.2/src/core/ngx_crc32.h:57-69 | the next piece is appended to what the register stands for |
| Crc32.Stream.Final | nginx-1.9.2/src/core/ngx_crc32.h:53-73 | for any split into pieces the result is the check of the whole |
| Crc32.CheckOfAbc | nginx-1.9.2/src/core/ngx_crc32.h:53-73 | the check of "abc" |
| Md5Rounds.SameF | nginx-1.9.2/src/core/ngx_md5.c:126 | the shorter F computes the function of section 3.4 of RFC 1321 |
| Md5Rounds.SameG | nginx-1.9.2/src/core/ngx_md5.c:127 | the shorter G computes the function of section 3.4 of RFC 1321 |
| Md5Rounds.Next | nginx-1.9.2/src/core/ngx_md5.c:135-138 | one STEP is the next of the 64 defined operations |
| Md5.Context.Body | nginx-1.9.2/src/core/ngx_md5.c:173-287 | folds the defined operations over the blocks of the data |
| Md5.Context.OneBlock | nginx-1.9.2/src/core/ngx_md5.c:190-280 | the unrolled rounds are the 64 operations on one block |
| Md5.Context.Update | nginx-1.9.2/src/core/ngx_md5.c:34-62 | the piece is appended to the message, however it meets the block boundaries |
| Md5.Context.Final | nginx-1.9.2/src/core/ngx_md5.c:65-115 | for any split, the digest of the whole padded message, also when the length needs a block of its own |
| Md5Example.DigestOfAbc | nginx-1.9.2/src/core/ngx_md5.c:65-115 | the digest of "abc" (appendix A.5 of RFC 1321) |
| Md5.SameFold | nginx-1.9.2/src/core/ngx_md5.c:34-62 | blocks processed from the buffer count like the same bytes in the message |
| Md5.LastTwo | nginx-1.9.2/src/core/ngx_md5.c:72-81 | the two last blocks of a message whose length does not fit into the first of them |
| Inet6Laws.HexValue | nginx-1.9.2/src/core/ngx_inet.c:351 | a printed word is read back as its value |
| ConnectionPool.Pool.constructor | nginx-1.9.2/src/event/ngx_event.c:1000-1040 | all slots are free and threaded in order |
| ConnectionPool.Pool.Reusable | nginx-1.9.2/src/core/ngx_connection.c:1184-1209 | a connection is in the queue, at its front, if and only if it is marked; the queue is in the order of the marks, the latest first |
| ConnectionPool.Pool.FreeConnection | nginx-1.9.2/src/core/ngx_connection.c:1067-1077 | the slot becomes the head of the free list and leaves the table of descriptors |
| ConnectionPool.Pool.Close | nginx-1.9.2/src/core/ngx_connection.c:1084-1181 | the connection leaves the queue, its slot is free, its descriptor is closed; closing it again does nothing |
| ConnectionPool.Pool.Drain | nginx-1.9.2/src/core/ngx_connection.c:1212-1235 | closes the connections marked longest ago, up to 32 or up to the first whose handler does not close it; each was marked before every one that stays; all others are left alone |
| ConnectionPool.AllClosing | nginx-1.9.2/src/core/ngx_connection.c:1212-1235 | when handlers close their connection, draining closes the oldest 32, or all when there are fewer |
| ConnectionPool.MarkedIs | nginx-1.9.2/src/core/ngx_connection.c:1190-1205 | marking moves a connection to the front of the queue, unmarking takes it out, others stay |
| ConnectionPool.Pool.GetConnection | nginx-1.9.2/src/core/ngx_connection.c:985-1051 | fails if and only if the descriptor is out of range or no slot is free and none can be drained; else a cleared slot with its instance bit flipped; what is drained was marked before what stays |
| Sockaddrs.CmpSockaddr | nginx-1.9.2/src/core/ngx_inet.c:1220-1290 | two addresses compare equal if and only if they are of one family with the same host or path and, when asked, the same port |
| Handover.HeirUnique | nginx-1.9.2/src/core/ngx_cycle.c:622-688 | no old socket is taken over twice and no new one takes over two |
| Handover.TakenByOne | nginx-1.9.2/src/core/ngx_cycle.c:622-688 | an old socket is marked if and only if a new one takes it over |
| Handover.MarkedCount | nginx-1.9.2/src/core/ngx_cycle.c:615-688 | at each address as many sockets are taken over as the smaller number of old ones not ignored and new ones |
| Handover.HandedOver | nginx-1.9.2/src/core/ngx_cycle.c:622-703 | a socket is taken over only by one at the same host and port or path, and is listened on again if the backlog differs |
| Handover.Committed | nginx-1.9.2/src/core/ngx_cycle.c:804-834 | after the unwanted ones are closed, the open sockets are exactly those of the new configuration, one each |
| Handover.RolledBack | nginx-1.9.2/src/core/ngx_cycle.c:968-979 | closing what was opened leaves exactly the sockets of the old configuration |
| SharedZones.Declarations.SharedMemoryAdd | nginx-1.9.2/src/core/ngx_cycle.c:1343-1415 | no name is declared twice; refused exactly for another use or another size |
| SharedZones.SharingReuse | nginx-1.9.2/src/core/ngx_cycle.c:568-583 | a zone with the same name, use and size takes over the old segment, which no other zone has |
| SharedZones.SharingFree | nginx-1.9.2/src/core/ngx_cycle.c:586 | a replaced segment is mapped when it is freed, and belongs to no new zone |
| SharedZones.SharingNew | nginx-1.9.2/src/core/ngx_cycle.c:591-601 | a new segment belongs to one zone, even when its address was in use before |
| SharedZones.SharingDone | nginx-1.9.2/src/core/ngx_cycle.c:754-796 | on success the segments are those of the new configuration: every old one has been taken over or freed once |
| SharedZones.OwnedIff | nginx-1.9.2/src/core/ngx_cycle.c:519-606 | when a reload fails an old zone still has its mapped segment, and no new zone has it unless it shares it, if and only if no new zone met so far replaces it |
| SharedZones.FailedReload | nginx-1.9.2/src/core/ngx_cycle.c:586-601 | a failed reload after which the old configuration has a zone whose segment is not mapped, and which frees it again when it is tried once more |
| Cycles.Cycle.ShareZone | nginx-1.9.2/src/core/ngx_cycle.c:533-605 | one zone is taken over exactly if name, use and size agree and it may be used again, and otherwise gets a new segment after the old one has been freed; how far it came when it fails; a segment that is not mapped is freed exactly when the zone replaces one whose segment has gone |
| Cycles.Cycle.TakeOver | nginx-1.9.2/src/core/ngx_cycle.c:624-703 | takes over the first old socket at the address that is left, or is marked to be opened |
| Cycles.Cycle.TakeOverAll | nginx-1.9.2/src/core/ngx_cycle.c:615-721 | at each address the sockets pair up in order |
| Cycles.Cycle.OpenListeningSockets | nginx-1.9.2/src/core/ngx_connection.c:380-630 | opens only sockets without a descriptor, in up to five rounds; on success all that are not ignored have one |
| Cycles.Cycle.FreeZones | nginx-1.9.2/src/core/ngx_cycle.c:754-796 | frees the old zones whose name is gone, and no other |
| Cycles.Cycle.CloseUnwanted | nginx-1.9.2/src/core/ngx_cycle.c:804-834 | closes the old sockets that were not taken over, each once |
| Cycles.Cycle.Rollback | nginx-1.9.2/src/core/ngx_cycle.c:968-979 | closes the sockets that were opened for this configuration, each once |
| Cycles.Cycle.InitCycle | nginx-1.9.2/src/core/ngx_cycle.c:519-979 | on success sockets and segments are exactly those of the new configuration; on failure the sockets are those of the old one, which can be reloaded again, new segments stay mapped, and each old zone keeps its segment if and only if it was not replaced |

## Left out

- Real system calls, the event loop, timers, signals and logging: their answers are parameters or free choices.
- `ngx_rbtree`, `ngx_queue`, `ngx_list`, `ngx_array` and pools: maps, sequences, and allocations that may fail. Addresses are
  kept where they matter: offsets inside the hash table, tag bits, segments of shared memory.
- `ngx_conf_handler`, `include` and the directive setters; `ngx_conf_read_token` ends with a code. A failed or short read
  and a failed allocation end a call as `Fault`, after which nothing is promised.
- vnode events of kqueue, symlink checks and `openat`, direct I/O and read-ahead of the open-file cache; the
  widths of its `count` and `uses` fields; calls without a cache; the release of the whole cache at exit; the order of the tree.
- Asynchronous reads, thread pools, the sendfile limit and the switching of direct I/O in the output chain; the next filter is any filter that
  takes a number of bytes from the front of what it holds and drops buffers that are empty.
- Filters that report an error: after `Error` or `Done` nothing is promised about the output chain.
- Links of chains and pointers to buffers as heap objects: chains are sequences of numbers, so sharing of links between chains is not seen.
- The alignment of buffers, the table copy of `ngx_crc32_table_init` and the erasure of the MD5 context at the end.
- Options of listening sockets (backlog aside), deferred accept, reuseport, socket files of Unix sockets, inherited descriptors in the
  environment, configuration tests (`-t`), open files and init handlers of modules, old cycles kept for workers.
- ConnectionPool.Pool.GetConnection: descriptors are not negative, as those the system returns; the fields of events other than the instance bit are not modelled.
- FileCache.FileCache.OpenCachedFile: says nothing of later calls after a race or a clash, because a descriptor is lost or shared then.
- HashLayout.Init: when a bucket outgrows its 16-bit width the model stops with `Overrun`, and does not describe the memory behind it; an empty list of names needs a bucket size of at least 24, because line 397 of `ngx_hash.c` divides by zero below.
- HashKeys.HashKeysArrays.AddKey: allocations do not fail, so the error code that reports it is not modelled.
- HashKeys.HashKeysArrays.AddHeadForm: allocations do not fail, so a call that stops after filing the exact name is not modelled.
- ConnectionPool.Pool.Drain: a handler closes its connection or leaves everything as it is; handlers that unmark it or change other connections are not modelled.
- Cycles.Cycle.OpenListeningSockets: an address in use during a configuration test (`-t`), which is skipped without a failure, is not modelled.
- Cycles.Cycle.InitCycle: says nothing of shared segments when an earlier failed reload has unmapped one of the old configuration.
- HashCombined.FindCombined: names are folded before the lookup by the caller; the hash of the query must be that of the query.
- `ngx_inet_ntop`, `ngx_sock_ntop`, URL parsing and name resolution; `ngx_murmur_hash2`, `ngx_crypt`, cpu detection, file copying and path creation.
