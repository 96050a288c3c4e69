# The algorithms of SAcc's support library

SAcc is a traffic accounting daemon. The daemon itself is mostly SQL, files and signals; the algorithms are in
the library that it carries under `src/auth/lib`. This project models that library and proves what its routines
promise:

- **dlmalloc.c**, a boundary-tag allocator. `Dlmalloc.Arena` holds one word-addressed memory and the globals
  (`top`, `binblocks`, the break). Every public routine keeps one invariant: chunks tile the region up to the end of
  `top`, the in-use bits and feet tell the truth, no two free chunks touch, every free chunk is on exactly one
  list, bins are sorted and a clear block bit means empty bins. `DlRuns.Run` lifts this to runs of malloc, free,
  realloc and user writes over blocks with contents.
- **GNUregex.c**, for literals, `.`, groups, `|`, `*`, `+` and `?` in POSIX extended syntax. The one-pass compiler
  with its in-place jump insertions is proved to leave a program that accepts exactly the language of the pattern;
  the matcher with its failure stack, its registers and its self-modifying jumps is proved to come to an end and to
  say yes exactly where a string that the pattern takes begins; the search with a fastmap is proved to find the
  first such place. What a pattern takes is what it denotes, but for one kind of loop that the code leaves too early.
- **radix.c**, the Patricia trie of routes: host routes in `Radix` and `RadixRuns`, routes to networks with
  duplicate chains, mask lists and recycled node pairs in `RadixRoutes` and `RadixTableRuns`.
- **splay.c**, **hash.c** and **heap.c**: a sorted set, a multimap with a live cursor and a priority queue.
- **md5.c**, **rfc1035.c**, **base64.c**, **uudecode.c** and **rfc1738.c**: a digest over a message that arrives in
  pieces, and codecs with their round trips.

Each file `x.dfy` or family `x_*.dfy` is about the source file of that name; `bytes.dfy` and `wrappers.dfy` are
shared. Code that changes memory step by step is a class with methods or a method with a loop, proved against a
function or predicate; the functions are then what the lemmas are about. `RegexText.PrintReadsBack` shows that every
expression of the fragment has a pattern that is read as it. `dafny verify dfyconfig.toml` checks everything.

## Model

| member | source | states |
|---|---|---|
| DlSizes.PaddingHoldsTheRequest | src/auth/lib/dlmalloc.c:1219-1222 | the padded size has room for the request and is the smallest such size exactly when the request plus 11 is below 2^31 |
| DlSizes.PaddingOfAHugeRequest | src/auth/lib/dlmalloc.c:1219-1222 | two requests for which it does not: they are padded to the smallest chunk |
| DlBlocks.CompareFindsBit | src/auth/lib/dlmalloc.c:2149-2164 | comparing the bitmap with one bit tells whether that block or a later one is marked |
| Dlmalloc.Arena.constructor | src/auth/lib/dlmalloc.c:1375-1425 | the invariant holds of the initial tables, for every trim threshold and top pad |
| Dlmalloc.Arena.TakeExact | src/auth/lib/dlmalloc.c:2056-2110 | a chunk taken from its own bin is of least size among all that fit; otherwise nothing changed and no bin before the one to go on from has a fit |
| Dlmalloc.Arena.TakeRemainder | src/auth/lib/dlmalloc.c:2114-2142 | the last remainder serves the request if it is large enough, else it is filed in its bin and nothing else changes |
| Dlmalloc.Arena.SkipBlocks | src/auth/lib/dlmalloc.c:2149-2176 | skipping blocks whose bit is clear misses no chunk that fits |
| Dlmalloc.Arena.SearchBins | src/auth/lib/dlmalloc.c:2149-2234 | a best fit over all bins is split off if any binned chunk fits; if none is found, none fits |
| Dlmalloc.Arena.MallocExtendTop | src/auth/lib/dlmalloc.c:1862-1966 | more core becomes part of top or a new top; blocks in use and bins stay; unless core was refused, top is large enough afterwards |
| Dlmalloc.Arena.Malloc | src/auth/lib/dlmalloc.c:2033-2263 | the invariant; the block is aligned, in use, of the padded size and disjoint from all others, whose contents stay; it comes from the last remainder, a best fit or top; failure means that core was refused and no free chunk and no top could serve |
| Dlmalloc.Arena.Free | src/auth/lib/dlmalloc.c:2288-2380 | the invariant; exactly that block goes out of use, merged with free neighbours or top; the contents of the others stay |
| Dlmalloc.Arena.Realloc | src/auth/lib/dlmalloc.c:2422-2616 | on every path, in place, forward, into top, backward, both ways or by copying: the first words up to the smaller of the old and the new size are kept, the others' contents too; it fails only if the old block is too small and a malloc would fail |
| Dlmalloc.Arena.MallocTrim | src/auth/lib/dlmalloc.c:2864-2918 | whole pages above the pad and a minimal top go back, or nothing changes |
| DlChecks.FreeChunksPass | src/auth/lib/dlmalloc.c:1548-1578 | the invariant implies the library's own check of free chunks |
| DlChecks.InuseChunksPass | src/auth/lib/dlmalloc.c:1581-1610 | and its check of chunks in use and their neighbours |
| DlChecks.MallocedChunkPasses | src/auth/lib/dlmalloc.c:1613-1636 | and its check of a chunk just allocated, for every size malloc may grant |
| DlChecks.BlocksAreDisjoint | src/auth/lib/dlmalloc.c:1134-1181 | no word belongs to two blocks, and blocks are aligned |
| DlChecks.UserWritesAreHarmless | src/auth/lib/dlmalloc.c:1134-1181 | a write into a block keeps the invariant and the other blocks' contents |
| DlRuns.Run | src/auth/lib/dlmalloc.c:2033-2616 | after any run of malloc, free, realloc and writes the blocks and their contents are what a store of separate blocks has; an operation may fail only if core was refused and nothing free was large enough |
| RegexBuffer.InsertOp1 | src/auth/lib/GNUregex.c:2014-2024 | the code after the place moves up three bytes and the jump is written there, nothing else changes |
| RegexLanguage.RepCollapses | src/auth/lib/GNUregex.c:1200-1234 | a run of `*`, `+` and `?` means what one operator with the permissions of all of them means |
| RegexCompiled.CollectOperators | src/auth/lib/GNUregex.c:1198-1234 | the loop stops after the run of operators, with the permissions that the run has |
| RegexMeaning.AcceptsWhatItMeans | src/auth/lib/GNUregex.c:1236-1296 | a finished program, with its forward and backward jumps, accepts exactly what the expression it was laid out for denotes |
| RegexMeaning.RunEnds | src/auth/lib/GNUregex.c:3385-3606 | however failure jumps are resolved, a run is at an instruction of the program, or at its end with a text of the language behind it |
| RegexLoops.SingleEntry | src/auth/lib/GNUregex.c:3761-3906 | control comes into a loop only from its failure jump, or from the dummy failure jump of a `+` that skips that one |
| RegexNumbers.NumberClose | src/auth/lib/GNUregex.c:1567-1633 | closing a group keeps the numbering of all groups by the order of their opening, without a gap |
| RegexCompiled.Compile | src/auth/lib/GNUregex.c:1041-1987 | if compiling succeeds and the code is shorter than 2^15, it accepts exactly the strings that the pattern denotes; an unbalanced parenthesis is reported only if the pattern has one; groups are numbered in order and loops are around single pieces, so that with at most 255 groups the matcher comes to an end |
| RegexIdle.EmptyEndIsIdle | src/auth/lib/GNUregex.c:2602-2606 | the code ends with a jump of distance 0 exactly when there are several alternatives and the last one is empty |
| RegexIdle.FrontReached | src/auth/lib/GNUregex.c:2602-2606 | that jump can be come to without reading exactly when an alternative before the last denotes the empty string |
| RegexIdle.IdlePattern | src/auth/lib/GNUregex.c:2602-2613 | an empty group with an empty alternative behind it is such a pattern, and if the buffer held the same with `a*` for the empty alternative before, the byte behind its code is an on_failure_jump |
| RegexFastmap.CompileFastmap | src/auth/lib/GNUregex.c:2435-2697 | if it does not stray behind the code, it terminates; can_be_null is set exactly when the pattern denotes the empty string; if not, every first character of a word is in the map; it looks behind the code, and strays if there is an on_failure_jump, exactly when the last alternative is empty and one before it denotes the empty string, unless the walk has stopped before |
| RegexPlaces.VerdictRight | src/auth/lib/GNUregex.c:3243-3289 | a verdict of n characters on the unrewritten program means that these characters are in the language |
| RegexMatch.ReMatch | src/auth/lib/GNUregex.c:3040-4147 | the matcher gives that verdict whichever maybe_pop_jumps earlier calls have rewritten, and its own rewriting keeps the program; a length returned is a match |
| RegexHalts.GoAlts | src/auth/lib/GNUregex.c:3385-3940 | wherever a command leads, at once or by way of the failure stack, there is less to do or something has been read; the groups around the place stay active, within the bounds that failure points save, and rightly noted as having matched something |
| RegexBudget.VerdictSettles | src/auth/lib/GNUregex.c:3040-4147 | with at most 255 groups the matcher comes to an end on every string: from a number of commands on that the program and the string give, no more commands change the verdict |
| RegexUnmarked.UnmarkedLoopNeverEnds | src/auth/lib/GNUregex.c:1548-1554 | `()` 255 times and then `()*`: no number of commands is enough |
| RegexTops.ToppedOn | src/auth/lib/GNUregex.c:3761-3906 | in a loop around characters the loop's own way out, or a dummy, is on top of the failure stack |
| RegexFinds.PopSafe | src/auth/lib/GNUregex.c:3802-3906 | maybe_pop_jump takes a failure point off only if the program can be ended without it, or cannot be ended from it |
| RegexFinds.WinsMatch | src/auth/lib/GNUregex.c:3385-4147 | if the end of the program can be reached from a start, there is a match there, or memory or steps run out |
| RegexTakes.CalmTakesAlts | src/auth/lib/GNUregex.c:3545-3547 | the strings taken are those denoted if no loop is around a group whose end has a 5 two bytes before its mark |
| RegexWins.AltsWin | src/auth/lib/GNUregex.c:3493-3606 | with every string that is taken the end can be reached, although loops are left when a round has matched nothing |
| RegexEnds.AltsEnd | src/auth/lib/GNUregex.c:3493-3606 | and where the end is reached, a string that is taken has been read |
| RegexDecides.MatchesWhatItTakes | src/auth/lib/GNUregex.c:3040-4147 | with enough steps and memory, a start matches if and only if a string that the pattern takes begins there |
| RegexDecides.MatchesWhatItMeans | src/auth/lib/GNUregex.c:3040-4147 | without such loops, if and only if a string that the pattern denotes does |
| RegexDisturbed.FifthGroupDisturbs | src/auth/lib/GNUregex.c:3545-3547 | a group that ends with the fifth group is taken for an empty one at its end |
| RegexDisturbed.FifthCharacterDisturbs | src/auth/lib/GNUregex.c:3545-3547 | and so is one that ends with characters of which the last but one has the code 5 |
| RegexDisturbed.FifthGroupEndsTheLoop | src/auth/lib/GNUregex.c:3545-3547 | `(()()()(a))*b` denotes `aab`, but the matcher finds no match at its beginning, whatever memory and steps it has |
| RegexLongest.ShorterMatchIsReported | src/auth/lib/GNUregex.c:3246-3288 | for `a` or else `ab`, the length reported on `abc` is 1, although the matcher goes on to look for the longest match |
| RegexSearch.SkippingAgrees | src/auth/lib/GNUregex.c:2809-2869 | skipping the starts that a covering map rules out changes no answer, unless trying one of them would have run out of memory or steps |
| RegexSearch.SearchFinds | src/auth/lib/GNUregex.c:2770-2872 | with enough steps and memory, and with a covering map or without one, a search finds the first start at which a string begins that the pattern takes, and nothing only if there is none |
| RegexSearch.ReSearch | src/auth/lib/GNUregex.c:2770-2872 | the search that skips is the search over all starts in turn, in both directions, with the map compiled first if it was stale; a start found is the start of a match |
| RadixShape.FirstBit | src/auth/lib/radix.c:393-428 | the byte loop finds the first bit where two keys differ, or that they are equal |
| RadixShape.Search | src/auth/lib/radix.c:168-180 | the walk down ends at the leaf whose key shares every tested bit with the address |
| Radix.Head.constructor | src/auth/lib/radix.c:935-962 | the three nodes of an empty head form the trie of the keys of zeros and of ones |
| Radix.Head.Insert | src/auth/lib/radix.c:392-456 | the Patricia invariant is kept; exactly the new key is added, or it was there |
| Radix.Head.Match | src/auth/lib/radix.c:263-361 | for host routes, the route found is the one with the address as key, and none is found exactly when there is none |
| Radix.Head.Delete | src/auth/lib/radix.c:718-896 | for host routes, exactly that key goes and neither node of the returned pair is in the trie, even if the internal one was active elsewhere |
| Radix.Head.WalkTree | src/auth/lib/radix.c:898-932 | each route is visited once, in ascending order of keys |
| RadixRuns.Run | src/auth/lib/radix.c:263-896 | any run of adds, deletes and matches of host routes answers as a set of keys does |
| RadixRoutes.Table.AddRoute | src/auth/lib/radix.c:566-716 | the new route is added and all others stay, or there is one with that key and mask; chains stay sorted, and every mask list stays complete and as high as it belongs |
| RadixRoutes.Table.Match | src/auth/lib/radix.c:263-361 | the early exit on a leaf and the scan of mask lists upwards give a most specific route that serves the address; the exact condition for the head's own leaf |
| RadixRoutes.Table.Delete | src/auth/lib/radix.c:718-896 | exactly the targeted route goes; the invariant is kept, and with it one active internal node for every chain and exact mask lists; neither node of the returned pair is reachable any more |
| RadixRoutes.Table.WalkTree | src/auth/lib/radix.c:898-932 | with a function that deletes some of the routes it is given, every route is visited once, by ascending address and the most specific first, but for those with the address of all ones; what is left are the others, and the invariant |
| RadixRoutes.Table.VisitLeaves | src/auth/lib/radix.c:922-927 | reading rn_dupedkey before the function is applied reaches every route of the chain, whichever of them are deleted |
| RadixVisits.NextIsThere | src/auth/lib/radix.c:917-921 | the successor that was computed in advance is still a leaf when routes of the leaf before it have been deleted |
| RadixVisits.TargetsItself | src/auth/lib/radix.c:741-770 | with its own address and mask a route is the one that a deletion takes |
| RadixRoutes.Table.HandDown | src/auth/lib/radix.c:843-871 | the list of an internal node that goes is appended to the list of an internal sibling, or its entries leave the lists together with their leaves' annotations |
| RadixDeletes.HandedEnd | src/auth/lib/radix.c:855-868 | when the walk along a sibling chain ends, the list is used up: the source's assertion holds |
| RadixEnlists.PendingRouting | src/auth/lib/radix.c:677-716 | once the new route is on the lists where it belongs, or need not be, every list is complete again |
| RadixDepartures.InactiveLeft | src/auth/lib/radix.c:797-831 | a route leaves a chain whose active pair is another: every chain keeps its one active pair, and both nodes are out of the trie |
| RadixDepartures.AloneLeft | src/auth/lib/radix.c:833-894 | the only route of a leaf leaves with the pair of its own |
| RadixTableRuns.Run | src/auth/lib/radix.c:263-896 | any run of adds, deletes and lookups with masks answers as a set of routes that is scanned each time |
| RadixFindings.AllOnesIsMissed | src/auth/lib/radix.c:263-361 | a table and an address for which a lookup gives none although a route serves it |
| RadixFindings.NetworkIsDeleted | src/auth/lib/radix.c:741-749 | a table from which a deletion without a mask takes a route to a network |
| RadixFindings.HostRouteGoesFirst | src/auth/lib/radix.c:741-749 | a deletion without a mask takes a host route exactly if the key has one |
| Splays.Forest.Splay | src/auth/lib/splay.c:49-102 | whatever the comparison does, the three-tree loop ends with the same nodes in the same order; for an ordering the item is between the two subtrees of the new root, and splayLastResult is the comparison with that root |
| Splays.InsertedSorted | src/auth/lib/splay.c:22-47 | inserting into a sorted list keeps it sorted |
| Splays.Forest.Insert | src/auth/lib/splay.c:22-47 | insertion is insertion into the sorted list of items, an equal item stays and the new node is freed |
| Splays.Forest.Walk | src/auth/lib/splay.c:115-123 | the items are visited in ascending order |
| Splays.Forest.Destroy | src/auth/lib/splay.c:104-113 | every node is freed once and every item is handed to the free function once |
| Splays.InsertedAllRepresents | src/auth/lib/splay.c:171-185 | after any insertions the items are sorted, one for each inserted item and no other |
| Splays.Run | src/auth/lib/splay.c:171-185 | a whole life of a tree: inserting any items and walking gives that list |
| Hashing.Table.Join | src/auth/lib/hash.c:166-174 | the link is first of all links, and the count is the number of links |
| Hashing.Table.Lookup | src/auth/lib/hash.c:181-194 | the most recently joined link with that key, or none exactly when there is none |
| Hashing.Table.First | src/auth/lib/hash.c:207-215 | what the cursor still has to yield is every link |
| Hashing.Table.Next | src/auth/lib/hash.c:223-233 | the next link is yielded, and null only when none is left |
| Hashing.Table.RemoveLink | src/auth/lib/hash.c:255-275 | exactly that link goes from the table and from what the cursor still has to yield, also if it was the pending one |
| Hashing.Table.Last | src/auth/lib/hash.c:239-245 | the cursor is put back and has nothing to yield; the table stays |
| Hashing.Traverse | src/auth/lib/hash.c:207-275 | a traversal mixed with any removals yields every link still there when reached once, and none that was removed |
| Hashing.Hash4 | src/auth/lib/hash.c:86-136 | the unrolled loop is a plain fold over the characters |
| Heaps.Heap.Insert | src/auth/lib/heap.c:143-161 | the order and the back pointers are kept and exactly one item is added, growing the array if needed |
| Heaps.Heap.Delete | src/auth/lib/heap.c:169-193 | the order and the back pointers are kept and exactly that item goes, wherever it is |
| Heaps.Heap.ExtractMin | src/auth/lib/heap.c:216-232 | an item of least key goes, or the heap was empty |
| Heaps.Heap.ExtractLast | src/auth/lib/heap.c:239-248 | the last node goes and the order of the rest stays |
| Heaps.Heap.Update | src/auth/lib/heap.c:258-272 | the contents are those after a deletion and an insertion, in the same node |
| Heaps.Heap.VerifyHeapProperty | src/auth/lib/heap.c:498-518 | the check answers yes exactly when every node is at most its children |
| Heaps.ExtractAll | src/auth/lib/heap.c:216-232 | repeated extraction gives everything in ascending order |
| Md5.PaddedInjective | src/auth/lib/md5.c:181-195 | different messages shorter than 2^61 bytes are padded differently |
| Md5.DecodeEncode | src/auth/lib/md5.c:305-330 | Decode undoes Encode |
| Md5.EncodeDecode | src/auth/lib/md5.c:305-330 | Encode undoes Decode |
| Md5.Context.Update | src/auth/lib/md5.c:142-175 | the context stands for the message so far followed by the input: whole blocks folded, the rest buffered, the 64-bit count in two words with its carry |
| Md5.Context.Final | src/auth/lib/md5.c:181-206 | the digest is the fold over the message padded as sections 3.1 and 3.2 of RFC 1321 say; the context is wiped |
| Md5.DigestOf | src/auth/lib/md5.c:125-206 | the digest of a message is the same for every way of cutting it into updates |
| Rfc1035.NamePack | src/auth/lib/rfc1035.c:186-201 | the labels that strtok finds, cut to 63 octets, each after its length, and a zero |
| Rfc1035.NameUnpack | src/auth/lib/rfc1035.c:301-355 | the loop with its recursion through pointers computes the reading of the message, and writes only the text and its NUL; when the octet behind the message is fetched |
| Rfc1035.NameFits | src/auth/lib/rfc1035.c:335-350 | all labels are kept exactly when the text and its NUL fit; a name that does not fit is reported as read exactly when some of its first labels fill the buffer |
| Rfc1035.ReadsAfterFails | src/auth/lib/rfc1035.c:311-317 | when the octet behind the message is fetched, the message ends with the first octet of a pointer, and the name is refused |
| Rfc1035.PointerCutShort | src/auth/lib/rfc1035.c:311-317 | at the last octet it is fetched exactly when that octet begins a pointer and at most 64 were followed before; a message of the octet 192 alone does it |
| Rfc1035.ReadSpelled | src/auth/lib/rfc1035.c:301-355 | a name spelled out in the message through at most 65 pointers is read, and the offset is just after it |
| Rfc1035.SpelledRead | src/auth/lib/rfc1035.c:301-355 | what is read with room to spare is spelled there through at most 65 pointers |
| Rfc1035.UnpackPacked | src/auth/lib/rfc1035.c:186-355 | unpacking a packed name gives its non-empty labels, cut, and stops just after it |
| Rfc1035.NameRoundTrip | src/auth/lib/rfc1035.c:186-355 | a name of labels of 1 to 63 characters comes back as it was |
| Rfc1035.CompressionKeepsText | src/auth/lib/rfc1035.c:311-330 | replacing a tail by a pointer to a spelling of it changes where the name ends, and leaves a dot at the end of the text exactly when the spelling has one or when a label is before the pointer and none behind it |
| Rfc1035.LongNameCutShort | src/auth/lib/rfc1035.c:335-350 | a name and a buffer for which a part of the name is reported as the whole |
| Rfc1035.PointerToRootLeavesDot | src/auth/lib/rfc1035.c:311-350 | a pointer to the root after a label leaves a dot at the end of the text |
| Rfc1035.HeaderPack | src/auth/lib/rfc1035.c:116-151 | the twelve octets of the header are written, and nothing else |
| Rfc1035.HeaderUnpack | src/auth/lib/rfc1035.c:240-284 | the fields of the first twelve octets, or an error exactly when there are fewer |
| Rfc1035.HeaderRoundTrip | src/auth/lib/rfc1035.c:116-284 | a packed header is unpacked to itself |
| Rfc1035.HeaderOctets | src/auth/lib/rfc1035.c:116-284 | packing an unpacked header clears bits 4 to 6 of the flags and changes nothing else |
| Base64.Init | src/auth/lib/base64.c:25-38 | the table has the value of each of the 64 characters, 0 for `=` and -1 for all others |
| Base64.Encode | src/auth/lib/base64.c:70-114 | the buffer holds the encoding of the string, or of its first 6141 characters, and a NUL |
| Base64.EncodeBin | src/auth/lib/base64.c:116-160 | the same for octets of a given number |
| Base64.Decode | src/auth/lib/base64.c:40-68 | the buffer holds the octets of the quanta of characters that have a value, as many as fit |
| Base64.JunkIsSkipped | src/auth/lib/base64.c:52-58 | characters without a value may be put in anywhere |
| Base64.DecodeEncode | src/auth/lib/base64.c:40-160 | all octets come back, followed by a zero for each octet of padding |
| Base64.StringRoundTrip | src/auth/lib/base64.c:40-114 | a string of at most 6141 characters is decoded to itself, of a longer one so much is |
| Uudecode.Uudecode | src/auth/lib/uudecode.c:26-71 | the result is the quanta of the leading alphabet characters, less what the last one lacks |
| Uudecode.UudecodeEncode | src/auth/lib/uudecode.c:26-71 | any octets that were encoded come back, whatever follows the NUL |
| Uudecode.DecodersAgree | src/auth/lib/uudecode.c:26-71 | both decoders give back the string, with leading blanks or without |
| Uudecode.StaysInside | src/auth/lib/uudecode.c:52-61 | nothing behind the NUL is read exactly when the alphabet characters make whole quanta, or enough other characters follow them |
| Uudecode.EncodedStaysInside | src/auth/lib/uudecode.c:52-61 | so it is for all encoded text |
| Uudecode.ReadsBeyondTheEnd | src/auth/lib/uudecode.c:52-61 | `A` and `AB`: two octets and one octet too many are read |
| Rfc1738.Escaper.DoEscape | src/auth/lib/rfc1738.c:88-147 | the kept buffer is large enough for the escaped string and its NUL whenever it is used again |
| Rfc1738.UnescapeInPlace | src/auth/lib/rfc1738.c:183-212 | in place, the string becomes its unescaped form; nothing from the old NUL on changes |
| Rfc1738.UnescapeEscape | src/auth/lib/rfc1738.c:152-212 | unescaping inverts rfc1738_escape and rfc1738_escape_part on every string |
| Rfc1738.EscapedOnce | src/auth/lib/rfc1738.c:162-167 | rfc1738_escape_unescaped changes nothing that any of the three has escaped, and so is idempotent |

## Findings

Where a routine does not do what its documentation or its callers expect, the model keeps the code as it is, and a
lemma has an input or the exact condition.

- **Huge requests.** `request2size` computes in signed longs. A request of 2^31 - 11 bytes or more is padded to the
  smallest chunk, so malloc succeeds with 16 bytes (`DlSizes.PaddingHoldsTheRequest`,
  `DlSizes.PaddingOfAHugeRequest`).
- **The address of all ones.** A lookup of it stops at the head's own leaf, so that a covering route is missed
  unless some route has that address as its key (`RadixFindings.AllOnesIsMissed`; the condition is in
  `RadixTableRuns.Answers`). A lookup of the address of all zeros falls through to the default route as it should.
- **Walking past the address of all ones.** `squid_rn_walktree` stops when it comes to the head's own last leaf, and so never
  visits the routes that are queued behind it: those with the address of all ones (`RadixRoutes.Table.WalkTree`).
- **Deleting without a mask.** `squid_rn_delete` then takes the head of the duplicate chain, whatever its mask
  (`RadixFindings.NetworkIsDeleted`, `RadixFindings.HostRouteGoesFirst`).
- **A group that looks empty at its end.** At the end of a group in a loop, `p[-3]` is meant to tell that the group was
  empty. It is the second byte before the mark, and if that is 5, the loop is left after one round. The fifth group at the
  end of a looped group does it, as in `((a)(b)(c)(d))*` (`RegexDisturbed.FifthGroupDisturbs`,
  `RegexDisturbed.FifthGroupEndsTheLoop`). `RegexTakes.Takes` is the language with such loops taken at most once, and
  `RegexDecides.MatchesWhatItTakes` is an if-and-only-if with it for all patterns of at most 255 groups; it is the
  pattern's own language when there is no such loop (`RegexTakes.CalmTakesAlts`).
- **The longest match.** At the end of the program the matcher goes back to look for a longer match, as long as there
  are failure points. A longer one that it finds when none is left is given up for an earlier one
  (`RegexLongest.ShorterMatchIsReported`: `a|ab` on `abc`).
- **More than 255 groups.** Groups from the 256th on have no marks, and a loop around an empty one goes round without end
  (`RegexUnmarked.UnmarkedLoopNeverEnds`). With at most 255 the matcher always comes to an end
  (`RegexBudget.VerdictSettles`).
- **Looking past the compiled code.** `re_compile_fastmap` looks at the byte where a jump of distance 0 leads. If that
  jump ends the code, as in `()|`, the byte lies behind it, and an on_failure_jump left there by an earlier pattern leads
  the walk astray (`RegexIdle.IdlePattern`; the condition is in `RegexIdle.EmptyEndIsIdle`, `RegexIdle.FrontReached` and
  `RegexFastmap.CompileFastmap`).
- **Unpacking a name that is too long** is reported as success with only part of the name exactly when some of its first
  labels fill the buffer (`Rfc1035.NameFits`; an input is in `Rfc1035.LongNameCutShort`).
- **A compression pointer to the root** leaves a dot at the end of the text (`Rfc1035.PointerToRootLeavesDot`), and
  only such a pointer behind a label does (`Rfc1035.CompressionKeepsText`).
- **A compression pointer in the last octet of a message** is fetched two octets at a time before the size is
  checked (`Rfc1035.PointerCutShort`); the octet behind the message makes no difference
  (`Rfc1035.ReadsAfterFails`).
- **uudecode** reads two octets behind the NUL when the text is one character over a multiple of four, and one when it is
  two over (`Uudecode.ReadsBeyondTheEnd`; the condition is in `Uudecode.StaysInside`).

## How the model differs from the code

- dlmalloc: the 32-bit layout (`SIZE_SZ` 4, alignment 8) with pages of 4096 bytes. Memory is a map from word
  addresses; the bin table is at fixed addresses. `sbrk` gives contiguous core below 2^31 or refuses, and which it does is
  left open; the ghost counter `refusals` counts refusals. The moves to a lower address copy in ascending order.
- GNUregex: the pattern is the fragment above and the string is in one piece. The matcher takes a number of steps that
  it may carry out, so that it is a total function; `RegexBudget.VerdictSettles` says which number is enough. Whether
  the failure stack can grow is a parameter that may depend on it. The answer when either runs out is the error. Where
  the matcher looks at a byte behind the code, it sees `no_op`.
- radix: keys are byte sequences of the table's length, compared as unsigned bytes. The chains of `rn_dupedkey`
  and the lists of `rn_mklist` are sequences in a field beside the node map, and not pointers in the nodes. A mask
  is its index, the number of leading ones, which `squid_rn_addmask` would make unique. A deleted pair leaves the
  node map and is handed back. Masks are contiguous, and a route's key has no bit outside its mask. The function that the
  walk applies never asks it to stop; the routes that it deletes are a parameter.
- splay: nodes are a map from addresses; the caller's comparison is a function. The allocator's choice of a free
  address is a parameter.
- hash and heap: links and nodes are objects. The caller's hash is a function below the table's size; heap keys are
  real numbers, for which the code has doubles.
- md5: `MD5Transform` is the decoding of the block and an arbitrary function of the state and the sixteen words.
- rfc1738: what sscanf makes of two characters that are not both hexadecimal digits is an arbitrary function. The
  string to escape is a sequence, so that passing the kept buffer back in, as in
  `rfc1738_escape_unescaped(rfc1738_escape(x))`, where the code may free it before it is read, is not representable.

## Left out

- dlmalloc: mmap, memalign, calloc, statistics, and the WIN32 part.
- Dlmalloc.Arena.MallocExtendTop: does not model core that other code has moved, and the fenceposts that this needs,
  because `sbrk` gives contiguous core here.
- GNUregex: bracket sets, intervals, back-references, word and buffer operators, the translate table, registers,
  split strings, and the failure of allocations while compiling.
- RegexCompiled.Compile: takes patterns of the fragment only, without anchors, bracket sets, intervals and backslashes.
- RegexMatch.ReMatch: does not say which of the strings that begin at the start is reported, only that it is one of
  them; it is not always the longest one.
- radix: masks that are not contiguous, `squid_rn_addmask` and its tree of masks, `squid_rn_refines` and `squid_rn_lookup`.
- splay: the debug dump. The walk and the destruction of an empty tree follow a null pointer in the code and are excluded.
- hash: the other hash functions, the choice of a prime size and the freeing of all items.
- heap: printing, and the statistics about skew.
- Md5.Context.Update: takes less than 2^32 - 64 bytes at a time, because the loop counter is 32 bits wide.
- rfc1035: questions, resource records, answers, the query counter and the error texts.
- Rfc1738.UnescapeEscape: says nothing of rfc1738_escape_unescaped, because that leaves percent signs as they are.
- The rest of the library, the daemon, the web pages and the authentication helpers.
