# Threads, near misses and read articles of trn

A model in Dafny of the data-structure core of the trn newsreader, and proofs about it:

- **The article forest.** Articles hang together by parent, first-child and sibling pointers;
  the subjects of one thread form a ring and share the head of its top-level articles. Linking,
  unlinking, merging two threads, putting a real article in the place of a fake one, and the
  whole of `thread_article` are methods on those objects. A ghost `State` holds the pointers
  as maps together with what they spell out (the child lists, the top-level list and the ring of
  every subject, and the thread every linked article is filed in), and every method is proved
  against a function on it. `Tidy` is the invariant between calls: the pointers spell out a
  forest, nobody is his own ancestor, every linked article is in exactly one list, that of its
  parent or of the thread its subject belongs to, and all others are on their own. `Dated` says
  that every list of siblings is in date order.
- **Reading a thread** depth first or breadth first without stack or queue.
- **The closest newsgroup names**: the edit distance in its rolling buffer with the early exit,
  the length filter, and the search that keeps the nearest candidates.
- **The .newsrc line**: printed as ranges of read articles, character by character, and parsed back.
- **The running counts** of unread and selected articles and of selected subjects.
- **Tables and files under them**: the chained hash table with its cursor, the doubly linked list
  of subjects over a table of their lines, the one-page virtual array of back pages.
- **Transfer**: an article body sent and received through NNTP with its dots, base64 and
  quoted-printable.

`dafny verify dfyconfig.toml` checks all of it.

| file | what is in it |
|---|---|
| Forest, Joining, Ancestry, Placing, Settling, Detaching, Ordering, Mixing, Replacing, References, Receiving, Walking, Finishing | the theory of the forest: well-formed links and what each change does to them, merging, climbing, the states between the steps of `thread_article`, date order, threads out of order and how subjects fall into threads, renaming, which references count, what an arrival does, the reference loop, its end |
| Pointers, Repeats, Aftermath, Agreement | `link_child`, `unlink_child`, the reference loop and the rest of `thread_article` as relations between any pointers, well formed or not; what a repeated reference does to them, and that without one they are what the model says |
| Threading | `class Group`: the methods that move the pointers |
| Running | whole runs of arrivals, and one that ends out of order |
| Traversal, Listing, Reading | the cursor functions on a listing of a thread, the listing of every thread of a `Group`, and the loop that reads a thread with them |
| EditDistance, Trading, CloseMatch | the distance, the defect in how it is measured, the search |
| Numbers, Newsrc | decimal numbers, the .newsrc line |
| Counting | the running counts |
| HashTable, SubjectIndex, BackPage | the hash table, the list of subjects, the virtual array |
| Strings, Transfer, Decoding | searching text, dot-stuffing between sender and receiver, the transfer encodings |

## Model

| member | source | states |
|---|---|---|
| Threading.Group.LinkChild | libtrn/Article.cpp:1133-1174 | the article goes behind every sibling that is not later, in its parent's list or at the top of its subject's thread, for all subjects of the ring; the forest stays well formed and in date order |
| Ordering.InsertStable | libtrn/Article.cpp:1165-1171 | the place found is behind exactly the siblings that are not later, so equal dates keep the order of arrival |
| Threading.Group.UnlinkChild | libtrn/rt-process.cpp:151-192 | exactly that article leaves its one list and nothing else changes; the rest is in date order afterwards if and only if it was but for that article |
| Ordering.LinkUnlink | libtrn/Article.cpp:1133-1174 | taking out the article just put in gives back the list |
| Threading.Group.MergeThreads | libtrn/rt-process.cpp:195-242 | the two rings become one ring of exactly their union, all of it shares one head, the second thread's top-level articles are filed one by one into the first's, subtrees stay; a second thread that was out of date order comes out in order |
| Ordering.MergeDated | libtrn/rt-process.cpp:234-241 | of two threads in date order the new top level is the stable merge by date, the first thread first on equal dates, and the forest is in date order |
| Threading.Group.ValidArticle | libtrn/Article.cpp:814-906 | refused exactly if another real article has the message-id; if a fake has it, the forest is the old one with the fake renamed and the fake is gone; otherwise only the table changes |
| Replacing.PlaceTaken | libtrn/Article.cpp:830-892 | the pointer moves of the replacement come to exactly the renaming: parent, children, siblings and heads of all subjects of the ring |
| Replacing.RenamedGrounded | libtrn/Article.cpp:830-892 | the renaming makes no cycle |
| Replacing.RenamedReplaced | libtrn/Article.cpp:826-892 | after it all but the article are in their place, and the article is where the fake was, in the thread of the fake's subject |
| Threading.Group.Detach | libtrn/Article.cpp:930-960 | the fake's thread and the article's own are merged, the article leaves the place of the fake, and with it go exactly the fakes above it that it alone kept alive; the rest is as it was |
| Detaching.OneLine | libtrn/Article.cpp:937-943 | there is only one line of fakes that ends at a real or shared article |
| Threading.Group.ReadReferences | libtrn/Article.cpp:963-1051 | from the nearest reference on, known-unrelated and repeated ones are skipped, unknown ones become a chain of fakes above the article, and the walk ends under the first article of a thread |
| References.PathIs | libtrn/Article.cpp:963-1051 | the references that count, told without the walk: the message-ids nothing is known of, each once and by first mention, up to the first text that is no message-id or the first article of a thread, and that article |
| Walking.RepeatWithoutDate | libtrn/Article.cpp:1011-1022 | the duplicate test lets a repeat through exactly when the article has no date, and then the link closes a cycle |
| Agreement.CallLeavesForestIff | libtrn/Article.cpp:963-1108 | every call that ends, whatever its references, leaves pointers that spell out a forest if and only if the article has a date or no reference that counts is repeated |
| Agreement.CallAsModelled | libtrn/Article.cpp:963-1108 | if so, merging, handing out the subject, climbing and cutting on the raw pointers leave a tidy forest, with the article where `ThreadArticle` puts it |
| Agreement.MergesAsModelled | libtrn/rt-process.cpp:195-242 | on well-formed pointers the raw merge is the one of `MergeThreads` |
| Aftermath.RepeatsAreNotMended | libtrn/Article.cpp:1052-1108 | if not, nothing that the rest of the call does to the raw pointers makes a forest of them again |
| Aftermath.TwiceFinishes | libtrn/Article.cpp:1011-1108 | a dateless article with references x, y, x, z: the call ends, and what it leaves is no forest |
| Repeats.ForestIffDatedOrNoRepeat | libtrn/Article.cpp:963-1051 | already at the end of the walk the pointers spell out a forest, but for one child of the article to be cut off, if and only if the article has a date or no reference that counts is repeated |
| Repeats.RepeatsLeaveNoForest | libtrn/Article.cpp:1016-1045 | with a dateless article and a repeat no reading of the pointers is well formed and without cycle, whatever child of the article is cut off |
| Repeats.TwiceIsNoForest | libtrn/Article.cpp:1011-1045 | references x, y, x, z of a dateless article: after the third there is a cycle, after the fourth all walks up end but x is in two child lists |
| Pointers.LinksAsModelled | libtrn/Article.cpp:1133-1174 | on well-formed pointers the raw sibling search and splice, and the loop around the ring, are what `AfterLink` says |
| Pointers.UnlinksAsModelled | libtrn/rt-process.cpp:151-192 | on well-formed pointers the raw search and cut are what `AfterUnlink` says |
| Threading.Group.ThreadArticle | libtrn/Article.cpp:916-1108 | for references unknown, repeated, naming the article or its own descendants: ends with a tidy forest with the article in it; each reference that counts is the parent of the one before; everybody else's parent, subject and date stay, but for one child that was an ancestor and is cut off, which happens exactly if the reference hung under descends from the article; the article's thread and that of the reference hung under become one and no others |
| Finishing.CutIffBelow | libtrn/Article.cpp:1081-1097 | the climb finds a child to cut exactly when the article is above the reference, and the child is on the way |
| Ancestry.ClimbedTo | libtrn/Article.cpp:1081-1097 | cutting the child the climb ended at removes the cycle |
| Threading.Group.Climb | libtrn/Article.cpp:1081-1086 | the climb ends, at the top or at a child of the article |
| Threading.Group.Receive | libtrn/Article.cpp:791-1108 | any article arriving in a tidy group leaves it tidy: refused without trace if a real article has its id, otherwise in the place its references give it; a group in date order is in date order afterwards if and only if the arrival does not disturb that or the references lead to a third thread, both told from the group before; everything new is fresh, and of the new ids all but the article's own are fakes |
| Receiving.ArrivedOrder | libtrn/Article.cpp:930-960 | told from the forest before the arrival: when the walk starts the article's thread is out of order exactly if the fake's thread is another one, the fake is at its top, and some article behind it is earlier than one of the other thread that is earlier than the newcomer |
| Receiving.LedApart | libtrn/Article.cpp:1057-1068 | told from the forest before the arrival: the second merge, which puts that in order, happens exactly if the references lead to a thread that is neither the fake's nor the article's own |
| Mixing.MergeMends | libtrn/rt-process.cpp:234-241 | merging a thread that is out of order into one that is in order leaves all in order |
| Mixing.LinkMixed | libtrn/Article.cpp:1133-1174 | linking puts no thread in order |
| Mixing.MergeJoins | libtrn/rt-process.cpp:195-210 | after a merge two subjects are in one thread exactly if they were, or one was in the first thread and one in the second |
| Ordering.MergeOrderIff | libtrn/rt-process.cpp:234-241 | filing a sorted list into one that is sorted but for one article leaves it so if and only if no article clashes |
| Running.LateArrival | libtrn/Article.cpp:932-936 | four articles arrive in an empty group, and it is out of date order |
| Running.Run | libtrn/Article.cpp:791-1108 | any sequence of arrivals in an empty group, each with a date or with references that are all different: always tidy, and of each message-id the first to arrive is in a thread with its date and subject |
| Running.RealsKept | libtrn/Article.cpp:791-1108 | no arrival changes subject or date of a real article |
| Receiving.ArrivedRepeats | libtrn/Article.cpp:1011-1022 | what was not repeated when the article arrived is not when it is threaded, though fakes have been freed |
| Threading.Group.FindOrCreate | libtrn/cache.cpp:478-507 | a known subject is found, a new one becomes a ring of its own; the forest stays tidy and in date order |
| Threading.Group.constructor | libtrn/cache.cpp:155-166 | an empty group is tidy |
| Listing.ThreadListed | libtrn/Article.cpp:351-371 | every tidy thread has a depth-first listing of exactly its articles, each once, with true depths, that spells out its pointers |
| Traversal.BumpArticle | libtrn/Article.cpp:351-371 | moves to the next article of the listing, past descendants when told so, and keeps the depth counter true |
| Traversal.NextOnLevel | libtrn/Article.cpp:373-382 | finds the next article of the level or none |
| Traversal.LastOnLevel | libtrn/Article.cpp:384-395 | finds the last article of the level before a given one |
| Traversal.NextArticle | libtrn/Article.cpp:397-429 | the next existing article, depth first or breadth first, or none |
| Traversal.PrevArticle | libtrn/Article.cpp:434-496 | the previous existing article, depth first or breadth first, or none |
| Traversal.FirstArt | libtrn/Subject.cpp:13-22 | the first existing article of the thread |
| Traversal.LastArt | libtrn/Subject.cpp:24-75 | the last existing article in the order of reading |
| Traversal.RealsInverse | libtrn/Article.cpp:397-496 | on existing articles next and previous undo each other, in both orders |
| Traversal.LastRealHasNoNext | libtrn/Subject.cpp:24-75 | an existing article has no next one exactly if it is the last |
| Traversal.WalkReadsAll | libtrn/Article.cpp:397-429 | from the first article on every article is reached, each once |
| Reading.ReadThread | libtrn/Article.cpp:397-429 | repeated next reads every existing article of a thread of the group exactly once, in preorder or level by level, and stops |
| EditDistance.DistanceIsLeastCost | libtrn/edit_dist.cpp:138-170 | the recurrence is the least number of insertions, deletions, changes and swaps of neighbours that turn one name into the other |
| EditDistance.EditDistn | libtrn/edit_dist.cpp:77-276 | returns what the ring holds, in any case; and unless the arguments are traded that is exactly the distance if that is at most the limit and some value above the limit otherwise |
| EditDistance.OffsetsNameEarlierCells | libtrn/edit_dist.cpp:165-177 | the modular offsets name the cells north, west, north-west and two up and left |
| EditDistance.RowAboveForever | libtrn/edit_dist.cpp:245-271 | once a whole row is above the limit so is every later cell, though a swap looks two rows back |
| EditDistance.DistanceSymmetric | libtrn/edit_dist.cpp:125-132 | the distance does not depend on which name comes first |
| Trading.LengthsRightIff | libtrn/edit_dist.cpp:109-132 | all names of two lengths are measured right if and only if the longer is not traded, or the lengths are more than the limit apart and names of one letter come out above the limit |
| Trading.CloseLengthsRightIff | libtrn/edit_dist.cpp:109-132 | up to a difference of the limit all names of two lengths are measured right if and only if the longer is not traded |
| Trading.NearLengthsFail | libtrn/edit_dist.cpp:109-132 | traded names of nearly the same length are not all measured right |
| Trading.EightApartIsRight | libtrn/edit_dist.cpp:109-132 | traded names eight apart are all measured right |
| CloseMatch.FindCloseMatch | libtrn/datasrc.cpp:1439-1554 | for every name and all candidates: no measure and no names if and only if no candidate whose length is within five of the name's is within seven of it; otherwise the least such measure, and of the candidates that have it the first nine to appear, in that order, each once. By what `edit_distn` returns; by the true distance if the name has at most 498 letters |
| CloseMatch.ClosestIsOne | libtrn/datasrc.cpp:1503-1554 | so there is just one right answer to every search |
| CloseMatch.SearchRightIff | libtrn/datasrc.cpp:1503-1554 | searches for names of a length among candidates of given lengths all find what they should if and only if the name has at most 498 letters or no candidate is one to five letters shorter |
| CloseMatch.OfferedAreTheClosest | libtrn/datasrc.cpp:1528-1550 | by any measure the offered are close and none is closer; who is as close and not offered comes later than all of them |
| CloseMatch.FilterLosesNothingIff | libtrn/datasrc.cpp:1511-1526 | a length filter of `hack` loses no candidate within `limit` if and only if `hack >= limit` |
| CloseMatch.FilterLosesLongerNames | libtrn/datasrc.cpp:1511-1526 | a candidate six or seven letters longer is close and lost |
| CloseMatch.TradedNameIsLost | libtrn/datasrc.cpp:1528-1534 | the only group close to a name of more than 498 letters, two to five letters shorter, is not offered because its arguments were traded |
| Newsrc.Newsgroup.BitsToRc | libtrn/bits.cpp:242-298 | prints the line of the first range from 1 and the runs of read articles, and counts the unread |
| Newsrc.RunsAre | libtrn/bits.cpp:259-283 | the runs are increasing, disjoint and maximal and hold exactly the read articles |
| Newsrc.Newsgroup.RcToBits | libtrn/bits.cpp:59-216 | goes through the items of any line: gaps become unread but for killed articles, ranges read; what that comes to is told by `ParsedIs`, `RunsLineIs` and `BlankLineIs` |
| Newsrc.LineHeader | libtrn/bits.cpp:88-93 | the printed text is parsed into exactly the runs it was printed from |
| Newsrc.LineLooks | libtrn/bits.cpp:242-298 | what the line looks like, character by character |
| Numbers.DecPlaces | libtrn/bits.cpp:256-283 | every digit of a printed number stands at its place and none is a leading zero |
| Numbers.NumberRead | libtrn/bits.cpp:63-77 | a number is read behind white space and a sign, whatever follows it |
| Newsrc.RoundTrip | libtrn/bits.cpp:59-298 | printed and parsed by the same group: the same unread articles, the same count, the same first |
| Newsrc.ParsedIs | libtrn/bits.cpp:59-216 | a printed line parsed by a group whose articles have come and gone: everyone's state and the count |
| Newsrc.PrintedKeeps | libtrn/bits.cpp:242-298 | what the line keeps is who was unread then and whoever has come since |
| Newsrc.RestoredIff | libtrn/bits.cpp:130-165 | all that should be unread is so again, if and only if not the last run that starts before the first article left is of a single number and that article should be unread |
| Newsrc.BlankLineIs | libtrn/bits.cpp:217-225 | a line with nothing on it: every existing article from the first number on that was not killed is unread, they are counted, and the first article is the first cached one there is |
| Newsrc.RunsLineIs | libtrn/bits.cpp:59-240 | a line of runs that does not start with a range from 1: an existing article from the first number on is unread exactly if it was not killed and is in none of the runs, but for the first one if a single number below it is taken for it; the count and the first article likewise |
| Newsrc.StartsFromOne | libtrn/bits.cpp:226 | printed runs start with "1-" exactly if the first is of several articles from 1 on |
| Newsrc.BlanksInFront | libtrn/bits.cpp:87-88 | blanks in front of a line make no difference |
| Newsrc.ExpiredRunEatsUnread | libtrn/bits.cpp:130-165 | such a case: articles 1 to 7 gone, first number still 1, line "1-4,6", article 8 unread |
| Counting.Counts.OneMore | libtrn/Article.cpp:260-286 | the article becomes unread and not deleted and joins a selected subject in selected-only mode, or else has its subject visited; all counts stay right and whoever is selected is unread |
| Counting.Counts.OneLess | libtrn/Article.cpp:290-306 | the article becomes read and is no longer selected; all counts stay right |
| Counting.Counts.OneMissing | libtrn/Article.cpp:308-314 | likewise for one that turns out missing |
| Counting.Counts.SelectArticle | libtrn/Article.cpp:500-530 | selects the article exactly if it exists and is unread, which then is not deleted; its subject is selected and to be visited in any case |
| Counting.Counts.DeselectArticle | libtrn/Article.cpp:574-594 | the article is no longer selected |
| Counting.Counts.SelectSubject | libtrn/Subject.cpp:79-110 | selects its existing unread articles, the new ones of them deleted no longer; it is selected and to be visited if there were any new ones, and counts as selected before in any case |
| Counting.Counts.DeselectSubject | libtrn/Subject.cpp:114-145 | none of its articles, nor it, stays selected, to be visited or selected before |
| Counting.Counts.KillSubject | libtrn/Subject.cpp:149-171 | its articles become read, the selected ones spared unless all are affected; it is neither to be visited nor selected before |
| Counting.Counts.UnkillSubject | libtrn/Subject.cpp:175-220 | its existing articles become unread, and all unread ones selected in selected-only mode; of both the new ones are deleted no longer, and its own marks are set exactly if something changed |
| Counting.Counts.KillThenUnkill | libtrn/Subject.cpp:149-220 | unkilling undoes killing exactly if all existing articles were unread and all killed ones exist; selections survive, outside selected-only mode, exactly if none was killed |
| Counting.Counts.SelectThenDeselect | libtrn/Subject.cpp:79-145 | deselecting undoes selecting exactly if nothing of the subject was selected |
| HashTable.Table.Store | libtrn/hash.cpp:40-52 | the table is a finite map from keys to data: the datum comes under its key, in the place of what was there |
| HashTable.Table.Erase | libtrn/hash.cpp:54-64 | the key is forgotten and nothing else |
| HashTable.Table.Fetch | libtrn/hash.cpp:70-91 | what the map has for the key; the cursor stands where that is or would go |
| HashTable.Table.StoreLast | libtrn/hash.cpp:94-103 | with nothing changed since the fetch it is a map update, whether the key was there or not |
| HashTable.Table.Walk | libtrn/hash.cpp:114-140 | every entry is visited exactly once, those for which the visitor answers below zero go and the others have what it left |
| HashTable.PutLooks | libtrn/hash.cpp:40-52 | in a bucket putting a datum changes what is found for its key only |
| HashTable.HashIsSum | libtrn/hash.cpp:168-177 | a key's hash is the sum of its characters in 32 bits |
| SubjectIndex.Index.SpliceAfter | libtrn/cache.cpp:348-379 | the range comes right behind the target, everything else keeps its order, both ways through the list |
| SubjectIndex.RangeOut | libtrn/cache.cpp:350-366 | leaving out a range at the head, in the middle or at the tail leaves the rest linked both ways |
| SubjectIndex.RangeIn | libtrn/cache.cpp:367-378 | putting a range behind an entry links all both ways |
| SubjectIndex.Index.SetOrder | libtrn/cache.cpp:381-393 | the list is the given permutation |
| SubjectIndex.Index.FindOrCreate | libtrn/cache.cpp:478-507 | a known line finds its entry, a new one comes last, and the table has just the entries of the list |
| SubjectIndex.Index.RemoveEmpty | libtrn/cache.cpp:324-346 | the entry leaves list and table |
| SubjectIndex.Index.Rekey | libtrn/cache.cpp:469-476 | list and table still agree if and only if no other subject has the new line |
| SubjectIndex.TwoOfOneKey | libtrn/cache.cpp:469-476 | an index in which they do not |
| BackPage.BackPageCache.VaryRead | libtrn/backpage.cpp:61-95 | an index that was written gives the value written last, whichever pages have been in memory since |
| BackPage.BackPageCache.VaryWrite | libtrn/backpage.cpp:98-139 | the index has the value and no other index loses its own |
| BackPage.Switched | libtrn/backpage.cpp:79-93 | another page comes into memory and nothing written is lost, though a page past the end of the file leaves the old one in the buffer |
| Transfer.SendBody | inews/inews.cpp:283-332 | the lines of the body with an extra dot where one starts with a dot, a line end on the last, and the single dot |
| Transfer.EndsOnce | inews/inews.cpp:283-332 | on the wire a line of a single dot is nowhere but at the end |
| Transfer.Session.CopyBody | libtrn/nntp.cpp:347-381 | copies exactly the shortest prefix of whole lines that reaches the position, and says so; if all lines up to the one that ends the list do not reach it, copies all of them and says that. Stopped at a position it can go on |
| Transfer.ArrivesIff | nntp/nntpclient.cpp:628-657 | a body arrives as it was sent, with a newline at its end, if and only if no line, with its extra dot, is longer than the limit |
| Transfer.Relay | libtrn/nntp.cpp:347-381 | the two programs together do so |
| Transfer.OneTooLong | nntp/nntpclient.cpp:654-655 | a line one character too long loses one |
| Transfer.LineArrives | nntp/nntpclient.cpp:628-657 | of a line of any length the last character of every block of `limit` that another block follows is lost, and nothing else |
| Transfer.AllArrive | libtrn/nntp.cpp:347-381 | with a limit of at least 3 every line of a body arrives in this way, and none is taken for the end |
| Transfer.EndIs | nntp/nntpclient.cpp:595-604 | a line ends the list exactly if it is a single dot, or a dot and a carriage return with anything behind |
| Transfer.BareFrontIs | nntp/nntpinit.cpp:74-96 | a line that ends without a carriage return keeps its newline |
| Decoding.B64Decode | libtrn/mime.cpp:1316-1359 | the bytes of the letters up to the first '=' or NUL, whatever is strewn between them |
| Decoding.LetterIndex | libtrn/mime.cpp:1297-1314 | the table gives every letter its place in the alphabet and nothing to any other byte |
| Decoding.SameNumber | libtrn/mime.cpp:1316-1359 | of any letters, six bits each, decoding makes as many full bytes as they hold: the same number but for the bits left over |
| Decoding.LettersAndEnd | libtrn/mime.cpp:1316-1359 | every text is letters up to an end with other bytes strewn in, so that decoding is determined for all texts |
| Decoding.Base64RoundTrip | libtrn/mime.cpp:1316-1359 | decoding undoes the encoding of section 6.8 of RFC 2045 for all bytes, with or without padding, with bytes outside the alphabet anywhere |
| Decoding.QpDecode | libtrn/mime.cpp:1174-1220 | coded bytes but carriage returns, soft breaks dropped, '_' a blank in a header, the rest as it is, up to a NUL |
| Decoding.QpRoundTrip | libtrn/mime.cpp:1174-1220 | in body and header decoding gives back the bytes however they were written, in either case of digits, wherever lines were broken, with equals signs that start nothing |
| Decoding.TokensOf | libtrn/mime.cpp:1174-1220 | every text is written so up to its first NUL, so that decoding is determined for all texts |
| Decoding.DigitValue | libtrn/mime.cpp:1155-1172 | a digit, in upper or lower case, is worth its place, and nothing else is a digit |

## Findings

What the program or its comments promise and the code does not keep, each with an input and
the exact condition under which it is kept.

| promise | where it fails | input | exact condition |
|---|---|---|---|
| a duplicate on the References line is recognised | libtrn/Article.cpp:1011-1022 tells it by its date, which a header without Date line leaves 0 | `Aftermath.TwiceFinishes` | `Agreement.CallLeavesForestIff` |
| siblings are in date order | libtrn/Article.cpp:932-936 merges two threads while the article stands, with its own date, where a fake stood | `Running.LateArrival` | `Threading.Group.Receive`, from `Receiving.ArrivedOrder` and `Receiving.LedApart` |
| a long first name is measured like any other | libtrn/edit_dist.cpp:109-132 sizes the ring for it and then trades the names | `Trading.OneLetterIsNear`, `CloseMatch.TradedNameIsLost` | `Trading.LengthsRightIff`, `CloseMatch.SearchRightIff` |
| lengths too different mean names too different | libtrn/datasrc.cpp:1511-1526 filters by 5 while 7 edits are close | `CloseMatch.FilterLosesLongerNames` | `CloseMatch.FilterLosesNothingIff` |
| a .newsrc line keeps what is unread | libtrn/bits.cpp:130-165 clamps a single number below the first article there is up to it | `Newsrc.ExpiredRunEatsUnread` | `Newsrc.RestoredIff` |
| a line read in pieces is the line | nntp/nntpclient.cpp:654-655 gives one character less than the limit and goes on behind the limit | `Transfer.OneTooLong` | `Transfer.ArrivesIff` |
| every subject line has one subject | libtrn/cache.cpp:469-476 stores under the new line without looking whether it is taken | `SubjectIndex.TwoOfOneKey` | `SubjectIndex.Index.Rekey` |

## Left out

- Threading.Group.ThreadArticle: asks that the article has a date or that no reference that counts is repeated, because otherwise what it leaves is no forest (`Agreement.CallLeavesForestIff`).
- Agreement.CallLeavesForestIff: speaks of calls that end; with a repeat the sibling search or the climb may go round for ever. It starts where the article is out of the place of a fake.
- Threading.Group.Receive: the flags, auto-selection and auto-killing that come with an article (`cache_article` beyond the subject, `perform_auto_flags`, pending message-ids that hold only kill flags) are not part of this model.
- Running.Run: asks of each arrival what can be told from its header; that a reference is repeated but does not count (`Threading.Group.Threadable`) is a matter of the group at that moment.
- Threading.Group.MergeThreads: the splice that keeps subjects of one thread next to each other in the selector's list (libtrn/rt-process.cpp:212-232) is not part of this model.
- Threading.Group.ValidArticle: an article without message-id, and what else `uncache_article` undoes for a refused one, are not part of this model.
- Threading.Group.ReadReferences: takes the references as a list from the right end of the header, an item being a message-id or text that ends the reading; cutting the header text into them, `valid_message_id` and `fix_msg_id` are not part of this model.
- Traversal.FirstArt: the lists of articles per subject that are read when a subject has no thread are not part of this model, nor is marking missing articles while reading.
- EditDistance.EditDistn: costs are all 1, as the program sets them.
- CloseMatch.FindCloseMatch: the candidates are a list; reading the active file, and asking the user to choose, are not part of this model.
- Newsrc.Newsgroup.RcToBits: asks that a first range from 1 ends at the last article at most. Beyond it libtrn/bits.cpp:93-96 makes no progress, since the number behind the last one is followed by itself; libtrn/rcln.cpp:514-560 notices such lines first. Automatic selection while parsing is not part of this model, nor is `check_expired` (libtrn/rcln.cpp:600-670), which rewrites the line when the server's first number has moved past its numbers.
- Newsrc.Newsgroup.BitsToRc: the name, the colon and the marking of unsubscribed groups are not part of this model; numbers are 1 or more and fit a long.
- Counting.Counts.OneMore: rereading mode, cross-postings, delayed unmarking, automatic flags and the first unread article are not part of this model, and `selected_only` is only ever set.
- HashTable.Table.Store: the datum's key is read by a function, as the comparators do; a comparator that disagrees with it, a table that was never made, and whether `char` is signed in the hash are not part of this model.
- HashTable.Table.StoreLast: asks that nothing has changed in the bucket since the fetch, as its callers see to.
- SubjectIndex.Index.SpliceAfter: asks that the target is not in the range; the ghost parameters name the parts of the list.
- BackPage.BackPageCache.VaryWrite: a negative index, and files that fail, are not part of this model.
- Transfer.ArrivesIff: asks for a limit of at least 2 (the program's is 512). The signature, authentication, timeouts and lost connections are not part of this model, and the server passes lines on unchanged.
- Decoding.QpDecode: files instead of strings (`qp_decode`, `b64_decode`) are not part of this model.
- The message-id and subject tables of `Threading.Group` are maps there; the hash table under them is modelled on its own.
- The tables of new groups and of the newsgroup order, and MIME parameters, are not part of this model.
- Terminal, paging, command loops, sockets, files, score and kill files are not part of this model.
