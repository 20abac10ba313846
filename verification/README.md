# Verified models of the download and checksum code

This project models, in Dafny, the parts of jigdo whose correctness depends on state that survives
between calls, and proves that each of them refines something simple.

- **SHA-256 and MD5** (`Words`, `Blocks`, `Memory`, `Sha256Spec`, `Sha256`, `Sha256Sum`,
  `Sha256Example`, `Md5Spec`, `Md5`, `Md5Example`). The contexts with their 128-byte staging
  buffer are classes whose methods copy and hash in place as the C code does. The specifications
  are FIPS 180-2 (sections 4.1.2, 5.1.1, 5.3.2 and 6.2.2) and RFC 1321 (sections 3.1 to 3.5),
  written as pure functions: pad the whole message once, fold the compression function over its
  blocks. A worked example of the one and two lines of the test suite of the other are carried
  through to their digests. Byte order and unaligned access are parameters, so all four builds are
  covered. Words are bit-vectors, counters are integers with their wrap-around written out.
- **getopt** (`GetoptSpec`, `GetoptRoundTrip`, `Getopt`). The scanner is a class with the static
  variables as fields; it rotates the argument array in place. The specification is one pure pass
  over the arguments; a command line written from a list of options and operands parses back to
  the list.
- **The FTP client** (`FtpSpec`, `FtpTalk`, `Ftp`). The outer machine and the four nested machines
  share `substate` and `sent` as in the original. Everything the network or the user answers comes
  from an arbitrary script, so a statement about `Ftp.Run` is a statement about every run. The
  conversation is recorded, and every command in it is justified by what was said before.
- **Host queues and host table** (`HostQueue`, `HostTable`). Pipeline and pending list against a
  plain queue; hash buckets against one flat list without duplicate keys.

List order follows the list library: `addObject` adds at the end of the arrival order,
`appendObject` at its beginning, `firstObject` is the oldest entry.

Where the code does less than one would expect, the model follows the code and the exact condition
is proved: the MD5 byte count (`Md5.CountExact`, `Md5.Context.ProcessBytes`), a run of getopt that
an option with the value -1 cuts short (`Getopt.Run`, `Getopt.NoRunIsCutShort`), paths that do not
start with a slash (`FtpSpec.FallbackSpellsPath`), the empty path that the directory walk reads
past (`Ftp.Run`), requests that change places when there is neither a channel nor a socket
(`HostQueue.RelaunchOrder`, `HostQueue.Host.AddNet`), and checksum objects whose digest a copy
does not carry (`Sha256Sums.Sha256Sum.Copy`, `Sha256Sums.Sha256Sum.Assign`).

Check everything with `dafny verify dfyconfig.toml`.

## Model

| member | source | states |
|---|---|---|
| `Sha256Sums.HashPieces` | src/util/glibc-sha256.cc:145-214 | for every way of cutting a message into update calls, empty ones and unaligned addresses included, and for both byte orders and both alignment settings, a fresh object ends with exactly the FIPS 180-2 digest of the concatenation: pad once, then fold |
| `Sha256.Context.ProcessBytes` | src/util/glibc-sha256.cc:145-214 | the representation is kept and the message grows by exactly the chunk, whatever the chunk length, its address and the fill state; `buflen` ends where both the aligned and the unaligned path leave it |
| `Sha256.Context.MergeBuffered` | src/util/glibc-sha256.cc:148-170 | first phase: absorbs a prefix of the chunk; if bytes are left over, the buffer is empty |
| `Sha256.Context.Drain` | src/util/glibc-sha256.cc:158-166 | an overfull buffer (65 to 128 bytes) is hashed down to its length modulo 64 without losing a byte; the copy satisfies the non-overlap precondition of `MemcpyWithin` |
| `Sha256.Context.HashCopies` | src/util/glibc-sha256.cc:184-189 | the loop that copies and hashes one block at a time leaves 1 to 64 bytes and absorbs the rest |
| `Sha256.Context.HashWholeBlocks` | src/util/glibc-sha256.cc:172-197 | second phase: both ways absorb whole blocks only and leave at most 64 bytes, though they stop at different points |
| `Sha256.Context.KeepTail` | src/util/glibc-sha256.cc:199-213 | third phase: 1 to 64 bytes are absorbed, a full buffer is hashed |
| `Sha256.StateIsDetermined` | src/util/glibc-sha256.cc:173-213 | message and buffered length determine hash value, counter and buffered tail: the aligned and the unaligned path leave the same state |
| `Sha256.Context.ProcessBlock` | src/util/glibc-sha256.cc:218-311 | `H` stays the fold of the compression function over all blocks and the counter grows modulo 2^64 |
| `Sha256.HashBlocks` | src/util/glibc-sha256.cc:237-300 | the loop over the blocks is the fold of `Compress` |
| `Sha256.HashBlock` | src/util/glibc-sha256.cc:272-296 | 64 rounds on eight shifting variables and the final additions are section 6.2.2, steps 2 to 4 |
| `Words.PlusCounts` | src/util/glibc-sha256.cc:275-296 | word addition counts: 0 added changes nothing, and one more in a summand is one more in the sum; this determines it for all words |
| `Words.PlusWraps` | src/util/glibc-sha256.cc:275-296 | addition is modulo 2^32: the largest word is followed by 0, and a word and its complement make the largest one |
| `Words.PlusAndBits` | src/util/glibc-sha256.cc:275-296 | words without a common bit are or-ed; a word added to itself is shifted |
| `Sha256Spec.ChChooses` | src/util/glibc-sha256.cc:252-252 | Ch takes each bit from the second word where the first has a one, from the third where it has a zero |
| `Sha256Spec.MajIsMajority` | src/util/glibc-sha256.cc:253-253 | Maj is the common bit of the first two words where they agree, the bit of the third where they differ |
| `Sha256.ExpandSchedule` | src/util/glibc-sha256.cc:263-270 | the array `W` is the message schedule of section 6.2.2 |
| `Sha256.MacrosAreSigmas` | src/util/glibc-sha256.cc:252-261 | the shift-and-or macros are the rotations of section 4.1.2 |
| `Sha256.SwapLoads` | src/util/glibc-sha256.cc:43-57 | a loaded and swapped word is the big-endian word on either kind of host |
| `Sha256.SwapStores` | src/util/glibc-sha256.cc:138-140 | a swapped and stored word is its big-endian bytes on either kind of host |
| `Sha256.LengthStores` | src/util/glibc-sha256.cc:126-133 | the single 64-bit swapped store and the two 32-bit stores both write the 8-byte big-endian bit count |
| `Words.ShiftHalves` | src/util/glibc-sha256.cc:130-132 | shifting the two counter words by three with the carried bits is the 64-bit shift |
| `Sha256.Context.Mark` | src/util/glibc-sha256.cc:123-124 | for every `buflen` in 0..64 the mark byte and the zeros end 8 bytes before a block boundary, within the buffer |
| `Sha256.Context.StoreLength` | src/util/glibc-sha256.cc:126-133 | the length field lands right behind the zeros and nothing before it changes |
| `Sha256.Context.PadTail` | src/util/glibc-sha256.cc:116-133 | the buffer holds the tail and the padding of the whole message, at most 128 bytes |
| `Sha256.Context.WriteDigest` | src/util/glibc-sha256.cc:138-140 | the 32 digest bytes are the hash words, most significant byte first; nothing else in the result buffer changes |
| `Sha256.Context.Finish` | src/util/glibc-sha256.cc:113-143 | the result is the digest of everything absorbed |
| `Sha256Spec.OutputWords` | src/util/glibc-sha256.cc:135-140 | the digest is the eight words in turn, most significant byte first |
| `Sha256Example.DigestOfAbc` | src/util/glibc-sha256.cc:113-143 | the worked example of FIPS 180-2, appendix B.1, carried through the schedule and all 64 rounds with literal words: the digest of "abc" is ba7816bf ... f20015ad |
| `Sha256Example.Compressed` | src/util/glibc-sha256.cc:272-296 | the value after the 64 schedule words and the 64 rounds of that example, whose literals are those of the appendix |
| `Sha256.Context.Init` | src/util/glibc-sha256.cc:91-105 | a context, whatever it held, represents the empty message |
| `Sha256.Context.CopyFrom` | src/util/sha256sum.cc:41-42 | a field-wise copy represents the same message in storage of its own |
| `Sha256.CopyIsFaithful` | src/util/sha256sum.cc:58-58 | equal fields represent equal messages |
| `Blocks.PaddingIsMinimal` | src/util/glibc-sha256.cc:61-63 | the number of zero bytes is the smallest that section 5.1.1 (and RFC 1321 section 3.1) allows |
| `Blocks.PaddingInjective` | src/util/glibc-sha256.cc:123-133 | different messages have different padded forms if the length field determines the length |
| `Sha256Spec.PaddingUnambiguous` | src/util/glibc-sha256.cc:123-133 | below 2^61 bytes the SHA-256 padding is unambiguous |
| `Blocks.FoldConcat` | src/util/glibc-sha256.cc:239-300 | hashing two runs of blocks one after the other is hashing their concatenation |
| `Blocks.FinishedByPadding` | src/util/glibc-sha256.cc:116-136 | hashing the buffered tail with its padding after the blocks before it hashes the padded message |
| `Blocks.MarkAndZerosOfTail` | src/util/glibc-sha256.cc:123-123 | the padding computed from `buflen` alone is that of the whole message |
| `Blocks.BufferedTail` | src/util/glibc-sha256.cc:173-213 | what remains after merging and skipping whole blocks has the length the aligned path computes |
| `Memory.Memcpy` | src/util/glibc-sha256.cc:155-155 | bytes are copied in order; no index passes the end of the buffer |
| `Memory.MemcpyWithin` | src/util/glibc-sha256.cc:163-165 | copies within one buffer; callers must show that the regions do not overlap |
| `Sha256Sums.Sha256Sum.constructor` | src/util/sha256sum.hh:229-235 | a new object is ready for an empty message |
| `Sha256Sums.Sha256Sum.Reset` | src/util/sha256sum.hh:237-244 | from any state, with or without a context and whatever stale bytes it holds, the object behaves as a new one |
| `Sha256Sums.Sha256Sum.Update` | src/util/sha256sum.hh:246-253 | the message grows by exactly the given bytes |
| `Sha256Sums.Sha256Sum.Finish` | src/util/sha256sum.hh:255-264 | the checksum is the digest of the message; the context is gone |
| `Sha256Sums.Sha256Sum.FinishForReuse` | src/util/sha256sum.hh:266-273 | the same digest as `Finish`; the context is kept |
| `Sha256Sums.Sha256Sum.Copy` | src/util/sha256sum.cc:36-44 | a copy of an unfinished object represents the same message in fresh storage; the digest is copied only from an object without a context |
| `Sha256Sums.Sha256Sum.Assign` | src/util/sha256sum.cc:47-61 | the same for assignment, including self-assignment; otherwise the old digest stays |
| `Sha256Sums.HashFork` | src/util/sha256sum.cc:36-44 | original and copy go on with different data and each gets its own digest right |
| `Sha256Sums.Sha256Sum.UpdateFromStream` | src/util/sha256sum.cc:137-159 | the message grows by exactly the bytes read; their number is the smaller of `size` and what the stream can deliver, so less than `size` only if the stream ended or failed |
| `Sha256Sums.InputStream.Read` | src/util/sha256sum.cc:147-149 | a short read sets eof or fail |
| `Md5.HashPieces` | src/util/glibc-md5.cc:210-279 | MD5 in any pieces is the RFC 1321 digest of the concatenation, provided each piece is shorter than 2^32 bytes |
| `Md5.CountExact` | src/util/glibc-md5.cc:308-310 | the two-word counter addition is exact if and only if the length is below 2^32, or below 2^33 with no carry out of the low words |
| `Md5.Context.CountUp` | src/util/glibc-md5.cc:308-310 | `total[1]:total[0]` advances as one 64-bit byte count exactly when the addition carries rightly |
| `Md5.SameCount` | src/util/glibc-md5.cc:308-310 | adding a length keeps a right count right and a wrong one wrong |
| `Md5.HashBlock` | src/util/glibc-md5.cc:312-438 | the 64 unrolled steps with rotating register names are the loop of RFC 1321 section 3.4 |
| `Md5.Round1` | src/util/glibc-md5.cc:350-365 | steps 1 to 16 with word index i |
| `Md5.Round2` | src/util/glibc-md5.cc:381-396 | steps 17 to 32 with word index 5i + 1 modulo 16 |
| `Md5.Round3` | src/util/glibc-md5.cc:399-414 | steps 33 to 48 with word index 3i + 5 modulo 16 |
| `Md5.Round4` | src/util/glibc-md5.cc:417-432 | steps 49 to 64 with word index 7i modulo 16 |
| `Md5.OpFF` | src/util/glibc-md5.cc:329-341 | one use of the macro is one step: table constant, shift and word of that step |
| `Md5.OpFG` | src/util/glibc-md5.cc:371-379 | one step of the second round |
| `Md5.OpFH` | src/util/glibc-md5.cc:371-379 | one step of the third round |
| `Md5.OpFI` | src/util/glibc-md5.cc:371-379 | one step of the fourth round |
| `Md5.MacrosAreAuxiliary` | src/util/glibc-md5.cc:285-289 | the optimised FF, FG and the others are F, G, H and I of section 3.4 |
| `Md5Spec.FChooses` | src/util/glibc-md5.cc:285-286 | F takes each bit from the second word where the first has a one, from the third where it has a zero |
| `Md5Spec.GChooses` | src/util/glibc-md5.cc:287-287 | G chooses between the first two words by the third |
| `Md5Spec.Parity` | src/util/glibc-md5.cc:288-288 | H is the parity of three words |
| `Md5Spec.Inversion` | src/util/glibc-md5.cc:289-289 | I inverts the second word where the first is set or the third is not |
| `Md5Spec.RotationIsCircular` | src/util/glibc-md5.cc:339-341 | the shift-and-or of CYCLIC is a circular shift for each of the sixteen shift counts |
| `Md5Spec.StepsCompose` | src/util/glibc-md5.cc:312-432 | running steps i to j and then j to n is running steps i to n |
| `Md5.LoadWords` | src/util/glibc-md5.cc:329-333 | `correct_words` holds the sixteen little-endian words of the block |
| `Md5.HashBlocks` | src/util/glibc-md5.cc:314-439 | the while loop over the words is the fold of the compression function |
| `Md5.LengthStores` | src/util/glibc-md5.cc:120-123 | low word first, then high word: the little-endian 64-bit bit count |
| `Md5.Context.Init` | src/util/glibc-md5.cc:75-84 | the context represents the empty message |
| `Md5.Context.ProcessBlock` | src/util/glibc-md5.cc:294-446 | A, B, C, D stay the fold over all blocks; when a right count stays right |
| `Md5.Context.Drain` | src/util/glibc-md5.cc:223-231 | an overfull buffer is hashed down without losing a byte |
| `Md5.Context.MergeBuffered` | src/util/glibc-md5.cc:213-235 | first phase |
| `Md5.Context.HashCopies` | src/util/glibc-md5.cc:248-254 | the loop that copies and hashes one block at a time, which keeps the count right whatever the length |
| `Md5.Context.HashWholeBlocks` | src/util/glibc-md5.cc:237-262 | second phase, aligned or not |
| `Md5.Context.KeepTail` | src/util/glibc-md5.cc:264-278 | third phase |
| `Md5.Context.ProcessBytes` | src/util/glibc-md5.cc:210-279 | the message grows by exactly the chunk; a chunk below 2^32 bytes keeps the count right, a longer one exactly if its blocks are copied one by one or the one carry it makes is seen |
| `Md5.Context.PadTail` | src/util/glibc-md5.cc:108-123 | tail, padding and length field within the buffer |
| `Md5.Context.ReadDigest` | src/util/glibc-md5.cc:91-99 | the 16 digest bytes, least significant byte first |
| `Md5.Context.Finish` | src/util/glibc-md5.cc:106-129 | the RFC 1321 digest of everything absorbed while the count is right |
| `Md5Spec.WordOfBlock` | src/util/glibc-md5.cc:329-333 | message word k is the little-endian word at byte 4k of the block |
| `Md5Example.DigestOfEmpty` | src/util/glibc-md5.cc:106-129 | RFC 1321, appendix A.5, carried through all 64 steps with literal words: the digest of the empty message is d41d8cd9...8427e |
| `Md5Example.DigestOfAlnum` | src/util/glibc-md5.cc:106-129 | the same for the letters and digits, two blocks and 128 steps, the first with sixteen different words: d174ab98...9d9f |
| `Getopt.Run` | src/util/glibc-getopt.c:512-970 | a run of calls delivers, in order, the events of a pure left-to-right parse of the original arguments, leaves the consumed arguments (`--` included) in order followed by the operands in order, with `optind` at the first operand; it stops early exactly if some event has the value -1, and then just before it; for signed and unsigned char |
| `GetoptRoundTrip.RoundTrip` | src/util/glibc-getopt.c:512-970 | what a command line means, said without the parser: for every list of operands, clusters of flags with an attached, separate or absent argument, long options under an exact name or a unique abbreviation with and without a value, unknown and ambiguous ones, ended by nothing, by `--` and operands, or by an option short of its argument, and for all three orderings, parsing the arguments written from the list gives back its meaning: returned value (a character below 128 as itself), optarg, optopt, index, flag store, consumed arguments and operands |
| `GetoptRoundTrip.SeparateArgument` | src/util/glibc-getopt.c:922-965 | if the first occurrence of an option character is followed by exactly one colon, the next argument, whatever it looks like, is its argument, and both are consumed |
| `GetoptRoundTrip.KindOfDeclared` | src/util/glibc-getopt.c:776-782 | the four kinds of option characters, read off the characters of optstring: no colon, one, two, or not listed |
| `GetoptRoundTrip.ClusterDecoded` | src/util/glibc-getopt.c:773-968 | a cluster gives its flags in order, then the option with its argument; `?` with optopt for each unknown character |
| `GetoptRoundTrip.LongDecoded` | src/util/glibc-getopt.c:643-746 | a long option gives its val, or 0 with val stored in its flag variable; a value it does not take is reported with its val in optopt |
| `GetoptRoundTrip.BadLongDecoded` | src/util/glibc-getopt.c:679-770 | an unknown or ambiguous long option gives `?` with optopt 0 |
| `GetoptRoundTrip.ItemParsed` | src/util/glibc-getopt.c:512-970 | whatever follows, an item at the front delivers its events and consumes exactly what it was written as |
| `GetoptRoundTrip.EndParsed` | src/util/glibc-getopt.c:718-965 | a missing argument is `:` if optstring starts with a colon and `?` otherwise, with the option in optopt; `--` ends the options |
| `Getopt.NoRunIsCutShort` | src/util/glibc-getopt.c:740-968 | every run delivers all its events if and only if no option delivers the value -1: neither a listed character 255 where char is signed, nor a long option without a flag variable under a name that selects it |
| `Getopt.ParseNeverEnds` | src/util/glibc-getopt.c:740-968 | the one direction |
| `Getopt.LastCharEnds` | src/util/glibc-getopt.c:776-968 | the argument that cuts a run short where char is signed and character 255 is listed |
| `Getopt.LongEnds` | src/util/glibc-getopt.c:740-745 | for such a long option there is an argument that cuts a run short |
| `Getopt.TableWithoutDone` | src/util/glibc-getopt.c:740-745 | a table without the value -1 has no such name |
| `GetoptSpec.CharValue` | src/util/glibc-getopt.c:776-776 | a char is -1 exactly if it is 255 and char is signed |
| `Getopt.Scanner.Call` | src/util/glibc-getopt.c:513-970 | one call delivers the first pending event, or ends the run when none is pending |
| `Getopt.Scanner.Next` | src/util/glibc-getopt.c:547-970 | the same after initialisation: 1 <= first_nonopt <= last_nonopt <= optind <= argc, and a non-empty nextchar is a proper suffix of the current element |
| `Getopt.Scanner.NextLong` | src/util/glibc-getopt.c:639-770 | a long option is one event |
| `Getopt.Scanner.NextShort` | src/util/glibc-getopt.c:773-968 | a character of a cluster is one event |
| `Getopt.Scanner.StartCluster` | src/util/glibc-getopt.c:617-622 | skipping the dash leaves what the run delivers unchanged |
| `Getopt.Scanner.Advance` | src/util/glibc-getopt.c:547-622 | either an option argument is next and nothing pending changed, or the call ends |
| `Getopt.Scanner.Initialize` | src/util/glibc-getopt.c:390-454 | state and ordering of a new scan |
| `Getopt.Scanner.ClampToOptind` | src/util/glibc-getopt.c:551-556 | the two indices never lie behind `optind` |
| `Getopt.Scanner.CloseGap` | src/util/glibc-getopt.c:558-566 | moving the operands behind the options that followed them leaves what the run delivers unchanged |
| `Getopt.Scanner.SkipOperands` | src/util/glibc-getopt.c:568-573 | stops at an option or at the end; what the run delivers is unchanged |
| `Getopt.Scanner.EndOptions` | src/util/glibc-getopt.c:576-592 | `--` ends the options: consumed arguments first, operands after them |
| `Getopt.Scanner.ShortOption` | src/util/glibc-getopt.c:773-968 | the next character of a cluster, its argument and both indices as the pure decoding of the cluster says |
| `Getopt.Scanner.LongOption` | src/util/glibc-getopt.c:643-770 | a long option, its argument, `optopt`, `*longind` and flag store as the pure decoding says |
| `Getopt.Scanner.Exchange` | src/util/glibc-getopt.c:305-383 | the two blocks have changed places and the indices name the moved block |
| `Getopt.RotateBlocks` | src/util/glibc-getopt.c:341-377 | the loop of partial swaps terminates with exactly the rotation |
| `Getopt.SwapBlocks` | src/util/glibc-getopt.c:349-356 | two equally long blocks change places, nothing else moves |
| `Getopt.RotatedBlocks` | src/util/glibc-getopt.c:291-299 | the rotation keeps each block in order and everything else in place |
| `Getopt.RotationKeepsOrder` | src/util/glibc-getopt.c:305-383 | after it the consumed arguments are contiguous and in order |
| `Getopt.ScanTable` | src/util/glibc-getopt.c:651-677 | the early-exit scan finds what `LongMatch` says |
| `GetoptSpec.LongMatch` | src/util/glibc-getopt.c:651-690 | the first exact match if there is one, even after prefix hits; else the unique prefix match; ambiguous exactly for two or more prefix matches; not found for none |
| `GetoptSpec.MatchIsDetermined` | src/util/glibc-getopt.c:651-690 | these four cases exclude each other |
| `GetoptSpec.ShortOptions` | src/util/glibc-getopt.c:773-968 | a cluster delivers between one event and one per character |
| `GetoptSpec.ParseIsStablePartition` | src/util/glibc-getopt.c:456-475 | consumed arguments and operands are two subsequences that together make up the arguments |
| `GetoptSpec.MergeKeepsAll` | src/util/glibc-getopt.c:456-475 | such a merge has exactly the elements of both subsequences |
| `GetoptSpec.EventsAreBounded` | src/util/glibc-getopt.c:547-622 | a run ends within a bound given by the total length of the arguments |
| `GetoptSpec.TotalLengthConcat` | src/util/glibc-getopt.c:547-622 | the total length is the sum of the lengths |
| `Getopt.SkippingKeepsTotal` | src/util/glibc-getopt.c:571-573 | skipped operands join the operands |
| `Getopt.ClusterStep` | src/util/glibc-getopt.c:776-781 | one character of a cluster is one event |
| `Getopt.LongStep` | src/util/glibc-getopt.c:639-746 | one long option is one event |
| `Getopt.FirstOperand` | src/util/glibc-getopt.c:609-615 | an operand that is not permuted ends the scan under REQUIRE_ORDER and is delivered with the value 1 under RETURN_IN_ORDER |
| `Getopt.EndOfArguments` | src/util/glibc-getopt.c:597-604 | backing up to the operands leaves the final state |
| `Ftp.Run` | src/net/libwww-HTFTP.c:1420-1664 | for every request, every sequence of answers and every sequence of events: every command may follow what was said before it (the reply codes are written out in `FtpTalk.MayFollow`) and carries what it may; every failure has one of the reasons in `FtpTalk.MayFail`, success follows a confirmed transfer command; USER and PASS carry the given name and password or what the user answered, ACCT what the user answered, TYPE the letter of the mode; a file is retrieved and a directory listed in the form the server understands, and the server type was cached or follows from the replies to SYST and PWD; TYPE, PASV, PORT, SYST and PWD are each sent at most once; every nested machine starts at sub-state 0 with nothing under way; the data connection is set up at most twice; the path commands are a prefix of the plan for STOR, RETR, LIST or NLST, with at most one CWD per slash of a path that starts with one; the path is read beyond its end exactly if it is empty and the change to the root was accepted; success means that `complete` is 3 with the data finished and a 2xx code, or with a finished PUT, and that the whole path was asked for at once or, except on VMS, by commands that spell it again exactly if it starts with a slash; each outcome has its cause |
| `FtpTalk.CarriedByWire` | src/net/libwww-HTFTP.c:620-706 | in every proper conversation names, passwords, accounts and types are those of the caller, the user and the mode |
| `FtpTalk.LoginReplies` | src/net/libwww-HTFTP.c:564-723 | where the reply codes to the greeting, REIN, USER, PASS and ACCT lead: logged in, to another command, or to a failure |
| `FtpTalk.SetupReplies` | src/net/libwww-HTFTP.c:800-897 | the same for TYPE, PASV and PORT |
| `FtpTalk.TransferReplies` | src/net/libwww-HTFTP.c:1180-1298 | the same for REST, the transfer commands and CWD |
| `FtpTalk.InquiryLeads` | src/net/libwww-HTFTP.c:953-1060 | after SYST and PWD, answered or not, the transfer may follow; an unanswered SYST leaves a generic server |
| `FtpTalk.SystemServerCases` | src/net/libwww-HTFTP.c:976-996 | which texts of a reply to SYST name which server, containment and prefixes spelled out |
| `FtpTalk.DirectoryServerCases` | src/net/libwww-HTFTP.c:1027-1051 | the directory between the first two quotation marks of a reply to PWD, and what it says: a leading slash, a closing bracket, or nothing |
| `FtpSpec.FallbackSpellsPath` | src/net/libwww-HTFTP.c:1246-1271 | directories and last argument rejoined with slashes are the path again, one component each and one CWD per slash, if and only if the path starts with a slash |
| `FtpSpec.OneCwdPerSlash` | src/net/libwww-HTFTP.c:1274-1298 | at every moment no more CWDs have been sent than the path has slashes |
| `FtpSpec.WalkRejoins` | src/net/libwww-HTFTP.c:1257-1268 | splitting at slashes from any offset loses nothing |
| `Ftp.Session.NextSegment` | src/net/libwww-HTFTP.c:1246-1271 | the next step of the plan; the path is read beyond its terminator exactly if the offset lies there, which only happens for the empty path |
| `Ftp.Session.ChangeDirectory` | src/net/libwww-HTFTP.c:1274-1298 | a CWD follows the plan; it goes on only after a 2xx reply |
| `Ftp.Session.Action` | src/net/libwww-HTFTP.c:1207-1244 | the transfer command follows the plan; the fallback is entered only from the first one and only after a 5xx reply |
| `Ftp.Session.SendAction` | src/net/libwww-HTFTP.c:1207-1221 | STOR for a PUT, else LIST, NLST or RETR, with the rest of the path |
| `Ftp.Session.ActionReply` | src/net/libwww-HTFTP.c:1222-1244 | 125, 150 and 225 open the data connection, 5xx starts the walk once, everything else fails |
| `Ftp.Session.Restart` | src/net/libwww-HTFTP.c:1145-1205 | an optional REST before the transfer command; it goes on only after a 350 reply |
| `Ftp.Session.Connection` | src/net/libwww-HTFTP.c:1108-1143 | a failed connect is the swap to PORT: possible only in passive mode, before anything was said about the file |
| `Ftp.Session.Body` | src/net/libwww-HTFTP.c:1321-1386 | completion bits are set only for finished data, a 2xx code or a finished PUT; success needs both |
| `Ftp.Session.Streaming` | src/net/libwww-HTFTP.c:1300-1386 | the sub-states after the confirmed transfer command keep the invariant and make progress |
| `Ftp.Session.Conversation` | src/net/libwww-HTFTP.c:1145-1298 | the sub-states that talk about the file keep to the plan and make progress |
| `Ftp.Session.GetData` | src/net/libwww-HTFTP.c:1083-1405 | loaded, swapped, failed or blocked, each with what then holds |
| `Ftp.Session.DataConnection` | src/net/libwww-HTFTP.c:774-916 | ends with an agreed connection that the server accepted, with an error, or blocked |
| `Ftp.Session.SetupCommand` | src/net/libwww-HTFTP.c:791-897 | TYPE A or TYPE I, PASV or PORT goes out, each at most once |
| `Ftp.Session.SetupReply` | src/net/libwww-HTFTP.c:800-897 | where each reply leads: 2xx after TYPE and PORT goes on, 227 means passive, anything else after PASV a PORT or an error |
| `Ftp.Session.FollowSetup` | src/net/libwww-HTFTP.c:800-897 | where a complete reply leads; only an unreadable address leaves the command marked as sent |
| `Ftp.Session.SelectConnection` | src/net/libwww-HTFTP.c:822-830 | passive if allowed and not yet tried, else a port of our own, which needs a listening socket |
| `Ftp.Session.PassiveReply` | src/net/libwww-HTFTP.c:842-870 | 227 makes the connection passive exactly if it has an address |
| `Ftp.Session.ServerInfo` | src/net/libwww-HTFTP.c:927-1073 | the server type is settled afterwards, by the replies in the conversation, and asked for at most once; directories are listed in the form it understands |
| `Ftp.Session.ServerCommand` | src/net/libwww-HTFTP.c:943-1017 | SYST or PWD goes out, as the sub-state says |
| `Ftp.Session.ServerReply` | src/net/libwww-HTFTP.c:953-1025 | where each reply leads: 215 or not after SYST, 2xx or not after PWD |
| `Ftp.Session.CheckSystem` | src/net/libwww-HTFTP.c:968-1003 | the server type follows from the text of the reply to SYST; without a text or a sure answer PWD is next |
| `Ftp.Session.CheckDirectory` | src/net/libwww-HTFTP.c:1027-1051 | the server type follows from the text of the reply to PWD |
| `FtpTalk.DirectoryServer` | src/net/libwww-HTFTP.c:1027-1051 | a PWD reply always settles the server type |
| `Ftp.Session.Login` | src/net/libwww-HTFTP.c:536-766 | ends logged in, with a reason to fail, or blocked; logged in means 2xx after USER, PASS or ACCT, a REIN refused otherwise than by 502, or a USER refused by 530 either right after REIN or with the remark that the user is already logged in |
| `Ftp.Session.Greeting` | src/net/libwww-HTFTP.c:564-579 | only a 2xx greeting leads on |
| `Ftp.Session.Prompt` | src/net/libwww-HTFTP.c:725-747 | the login goes on exactly if the user gives both a name and a password |
| `Ftp.Session.AskUser` | src/net/libwww-HTFTP.c:725-745 | name and password become what the user answers, or empty |
| `Ftp.Session.LoginCommand` | src/net/libwww-HTFTP.c:581-708 | REIN goes out without an argument, USER with the name, PASS with the password, ACCT with the account, as the sub-state says |
| `Ftp.Session.LoginReply` | src/net/libwww-HTFTP.c:581-723 | where each reply leads; a read that fails is an error |
| `Ftp.Session.FollowReply` | src/net/libwww-HTFTP.c:581-723 | where a complete reply leads |
| `Ftp.Session.ReadControl` | src/net/libwww-HTFTP.c:235-269 | one answer is read; every complete reply is added to the conversation and sets or clears the remark that the user is already logged in |
| `Ftp.Session.UserReply` | src/net/libwww-HTFTP.c:627-660 | 2xx logs in; 3xx asks for the password; 530 logs in right after REIN or with the remark that the user is already logged in, and prompts otherwise |
| `Ftp.Session.PasswdReply` | src/net/libwww-HTFTP.c:675-698 | 2xx logs in; 3xx asks for an account, which the user may refuse; 530 prompts |
| `Ftp.Session.FTPEvent` | src/net/libwww-HTFTP.c:1456-1664 | keeps the invariant for every event; LOADED is reported only for success or a closed socket, and each kind of event has its outcome |
| `Ftp.Session.Advance` | src/net/libwww-HTFTP.c:1491-1663 | the event loop keeps the invariant and terminates |
| `Ftp.Session.Enter` | src/net/libwww-HTFTP.c:1493-1663 | a nested machine may be started only at sub-state 0 with no command under way |
| `Ftp.Session.EnterSetup` | src/net/libwww-HTFTP.c:1619-1640 | the same for the data connection machine, whose starts are counted |
| `Ftp.Session.LogIn` | src/net/libwww-HTFTP.c:1614-1619 | login leads to the data connection only when logged in |
| `Ftp.Session.SetUp` | src/net/libwww-HTFTP.c:1621-1630 | name lists and only they go through the server type machine, everything else to the transfer |
| `Ftp.Session.Inquire` | src/net/libwww-HTFTP.c:1644-1649 | the transfer follows whether or not the server type was found |
| `Ftp.Session.Retrieve` | src/net/libwww-HTFTP.c:1632-1642 | success, failure or, after a swap, the data connection again |
| `Ftp.Session.SetUpAgain` | src/net/libwww-HTFTP.c:1639-1640 | the second set-up starts in passive mode with PORT not yet used, so there is no third |
| `Ftp.Session.Prepare` | src/net/libwww-HTFTP.c:1495-1544 | GET and PUT go on with the transfer type of URL and settings, other methods fail |
| `Ftp.Session.Connect` | src/net/libwww-HTFTP.c:1546-1612 | the login follows only on a server of the right class; on a kept connection it starts with REIN and the cached server type |
| `Ftp.Session.SendCommand` | src/net/libwww-HTFTP.c:386-398 | one more command on the wire, which must be allowed after what was said |
| `Ftp.Session.ValidKeepsLimits` | src/net/libwww-HTFTP.c:1456-1664 | the invariant of every state implies the limits of a run and the reasons of its end |
| `Ftp.Session.MayProceed` | src/net/libwww-HTFTP.c:1621-1649 | after an agreed set-up the server type machine and the transfer find their starting states |
| `HostQueue.Serve` | src/net/libwww-HTHost.c:905-1256 | for every sequence of operations: no request is lost or duplicated, and as long as each operation finds a channel open or a socket free, active and pending requests together are a plain queue in arrival order; a channel once opened stays open until a request is deleted or the mode goes back to single; at most one request is active without a change of mode, at most the pipeline maximum without interleaving; and on an open channel with nothing deleted the active requests are exactly the first ones, one in single mode, as many as the pipeline takes in pipeline mode, all in interleaved mode, fewer if the server limits a connection, none once it closes |
| `HostQueue.Perform` | src/net/libwww-HTHost.c:905-1256 | each operation is the corresponding step of the plain queue if the host has a channel or can get one; which operations keep the channel |
| `HostQueue.PerformNext` | src/net/libwww-HTHost.c:905-1256 | one more operation keeps what is known of the host: bounds of the active requests, and which ones they are |
| `HostQueue.AfterAll` | src/net/libwww-HTHost.c:950-976 | what that means for the two lists |
| `HostQueue.RoomUnderLimit` | src/net/libwww-HTHost.c:950-976 | there is room exactly below the limit that mode, maximum and server set |
| `HostQueue.NoneToLaunch` | src/net/libwww-HTHost.c:1228-1256 | while requests are admitted in order none is left to be launched |
| `HostQueue.WithoutConcat` | src/net/libwww-HTHost.c:1154-1170 | removing a request from two lists in turn is removing it from both |
| `HostQueue.WithoutMultiset` | src/net/libwww-HTHost.c:1154-1170 | removing takes out every occurrence of the request and no other |
| `HostQueue.RelaunchOrder` | src/net/libwww-HTHost.c:1228-1256 | a popped request keeps its place if and only if there is a channel or a socket, or it waits alone, or it holds the lock |
| `HostQueue.Host.AddNet` | src/net/libwww-HTHost.c:981-1084 | exact new queues; with nothing pending a request becomes active exactly if the pipeline is empty (single mode, or a host that had to be recovered), or holds fewer than the maximum (pipeline mode), or always (interleaved mode), and never beyond the limit of the connection or after a close; it goes behind all others if and only if the queue is empty, or it is not just being launched, or (without channel and socket) it does not hold the lock |
| `HostQueue.Host.NextPendingNet` | src/net/libwww-HTHost.c:1186-1207 | the oldest pending request is popped |
| `HostQueue.Host.LaunchPending` | src/net/libwww-HTHost.c:1228-1256 | exact new queues after a launch of this host; none while the pipeline is being written, closed, broken or used up |
| `HostQueue.Host.ClearChannel` | src/net/libwww-HTHost.c:774-812 | launches a request of this host only if its pipeline is empty |
| `HostQueue.Host.Free` | src/net/libwww-HTHost.c:1086-1152 | never moves a request: the finished one still occupies the pipeline |
| `HostQueue.Host.DeleteNet` | src/net/libwww-HTHost.c:1154-1170 | the request is gone from both queues, all others keep their order; the lock goes to the oldest pending one |
| `HostQueue.Host.SetMode` | src/net/libwww-HTHost.c:905-941 | going back to single mode puts the pipeline ahead of the pending requests in the same order |
| `HostQueue.Host.MoveToPending` | src/net/libwww-HTHost.c:916-921 | the loop moves the whole pipeline |
| `HostTables.Serve` | src/net/libwww-HTHost.c:280-483 | for every sequence of calls, with objects idle or busy in any way, the buckets hold exactly what a flat cache holds, no key occurs twice and the answers are those of the flat cache; no look-up, and no request that finds its host idle, is answered with an object older than the timeout |
| `HostTables.Perform` | src/net/libwww-HTHost.c:280-483 | each call is the corresponding step of the flat cache |
| `HostTables.NewAnswersTheKey` | src/net/libwww-HTHost.c:280-361 | a request for a host object is always answered with one for its host and port |
| `HostTables.FoundUntilExpired` | src/net/libwww-HTHost.c:305-457 | after any calls: an object just made is the answer to a look-up of its host until the timeout has passed and not after, whatever is asked about other hosts in between; asked for by its key it is given until then, or as long as it is busy, and made anew otherwise |
| `HostTables.MadeStays` | src/net/libwww-HTHost.c:305-361 | calls for other hosts leave it the newest of its host and the one for its key |
| `HostTables.LastAnswerIsFresh` | src/net/libwww-HTHost.c:305-457 | the last answer of a run is not older than the timeout, unless the host is busy |
| `HostTables.AnswersAreFresh` | src/net/libwww-HTHost.c:305-457 | the same for one call on any cache |
| `HostTables.BusyIsKept` | src/net/libwww-HTHost.c:309-313 | a busy object is given as it is, however old |
| `HostTables.OtherHosts` | src/net/libwww-HTHost.c:280-457 | a call changes nothing about other hosts |
| `HostTables.NewestIsLast` | src/net/libwww-HTHost.c:440-453 | the newest object of a host is the last one made under its name |
| `HostTables.EntryForKey` | src/net/libwww-HTHost.c:305-318 | with distinct keys the object for a key is the one that has it |
| `HostTables.RemovedAt` | src/net/libwww-HTHost.c:96-102 | removing takes out one occurrence and keeps all others in order |
| `HostTables.EntriesOfCalls` | src/net/libwww-HTHost.c:305-318 | look-up and removal of objects are look-up and removal of entries of the flat cache |
| `HostTables.HostTable.New` | src/net/libwww-HTHost.c:280-361 | returns an object for the key: the cached one, with only a cold channel given up, or a fresh one if there is none or the cached one was idle and expired and has been collected; buckets and flat list agree afterwards and no key occurs twice |
| `HostTables.HostTable.Find` | src/net/libwww-HTHost.c:424-457 | the newest object for the host name whatever its port; an expired one is collected instead, busy or not |
| `HostTables.HostTable.DeleteAll` | src/net/libwww-HTHost.c:462-483 | nothing is left |
| `HostTables.HostTable.DeleteObject` | src/net/libwww-HTHost.c:96-102 | removing from the bucket removes from the flat list |
| `HostTables.HostTable.AddObject` | src/net/libwww-HTHost.c:341-358 | adding to the bucket adds to the flat list |
| `HostTables.HostTable.SearchKey` | src/net/libwww-HTHost.c:305-318 | searching one bucket newest first is looking up the key in the flat list |
| `HostTables.HostTable.SearchName` | src/net/libwww-HTHost.c:440-453 | the same for a name alone |
| `HostTables.HostInfo.Reuse` | src/net/libwww-HTHost.c:321-339 | only an idle channel that has gone cold is given up; any other one with a time limit gets a new one |
| `HostTables.ComputeHash` | src/net/libwww-HTHost.c:291-294 | the loop computes the hash, within the table |
| `HostTables.BucketMembers` | src/net/libwww-HTHost.c:290-303 | an object sits in the bucket of its hash and in no other |
| `HostTables.LookupInBucket` | src/net/libwww-HTHost.c:305-318 | for every key the bucket of its hash and the flat list give the same object |
| `HostTables.NewestInBucket` | src/net/libwww-HTHost.c:440-453 | the same for a host name |
| `HostTables.RemovedFromBucket` | src/net/libwww-HTHost.c:96-102 | removing an object changes only its bucket |
| `HostTables.RemovedMembers` | src/net/libwww-HTHost.c:96-102 | removal takes out that object alone and keeps the keys distinct |

## Left out

- Md5.HashPieces: promises nothing about the digest once a piece has 2^32 bytes or more; `Md5.Context.ProcessBytes` says exactly when such a piece is counted rightly.
- Sha256Sums.Sha256Sum.UpdateFromStream: requires a positive buffer size, because the original takes the address of the first element of an empty buffer otherwise; the progress reporter is not modelled.
- Getopt.Scanner.Call: requires an option string without a leading `+` or `-`, which the original skips only on the first call, and without a `W;` entry, whose ambiguous branch advances `optind` twice; `long_only` is 0.
- Ftp.Run: commands are sent without blocking or failing; a reply shows when it is complete, so the code of a reply that still lacks lines is not seen; arguments are recorded before `HTUnEscape` and `HTCleanTelnetString`, which are not part of this model.
- Ftp.Session.NextSegment: for the empty path the original goes on reading beyond the terminator; the model ends the transfer there and records it.
- HostQueue.Serve: keeps arrival order only while every operation finds a channel or a socket; without them the exact condition is that of `HostQueue.RelaunchOrder` and `HostQueue.Host.AddNet`.
- Derivation of the constant tables of SHA-256 and MD5, and anything cryptographic.
- The MD5 object around the MD5 context; it has the life cycle of the SHA-256 one.
- `SHA256Sum::abort`, `SHA256::clear`, serializers, comparison operators, Base64 output; the DEBUG-only `finished` flag is a ghost field.
- getopt error messages, the `_LIBC` flags of bash, NUL characters in arguments, a caller that changes the arguments between calls.
- FTP: parsing of the URL, of reply lines and of the six numbers in a 227 reply (whether they can be read, and whether a reply has the word that the user is already logged in, is part of the answer); listening sockets; the choice of a REST offset from the range header; stream set-up; user alerts.
- FTP: `FTPMode` is a constant in the original and a parameter here, because its PASV branch would be dead code otherwise; the bit values of the server types are not part of this model.
- Hosts: launching requests of other pending hosts, switching automatic launches off, the activation and reset callbacks, timers, `HTHost_recoverPipe` (its main body is dead code while MAX_HOST_RECOVER is 0), capacity limits of the pipeline across a cleared channel.
- `HTNet_execute` is taken to add the popped request again at once.
- Host table: the launch that clearing a cold channel may cause, the host name NULL; HOST_HASH_SIZE is not part of this model and is a parameter.
- Proxy settings, the image assembly job, the template format, the user interface.
