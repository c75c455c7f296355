# Verified model of the TempusMUD tools and game rules

The project models the parts of the MUD that keep real state or run real algorithms, and proves what
they promise.

- **Room and object files** (`Text`, `Pieces`, `Extradescs`, `Inputs`, `Weights`, `Rooms`, `RoomRoundTrip`,
  `RoomRecord`, `Items`, `ItemRoundTrip`, `ItemRecord`). The record readers are state machines over lines with
  a nested reader for texts that end in a tilde; the printers write what those machines read. The classes
  `RoomRecord` and `ItemRecord` fill and print their fields in place as the Ruby objects do, and each method
  is proved against the machine and the printed text. On these the inverse theorems are proved, over
  unbounded text, with the exact condition under which a record survives.
- **Rewriting room files** (`Titles`, `Wrap`, `RoomFixes`, `RoomFiles`, `FixRooms`). Titles are put into title case,
  descriptions formatted to fit the screen, and the file printed again. Fixing a room twice is the same as
  once; that the new file reads as the fixed rooms, and that rewriting it once more changes nothing, is proved
  with its exact condition.
- **Clans** (`ClanList`, `ClanRules`, `ClanRuns`, `ClanTitles`, `ClanStanding`, `ClanLimit`, `ClanAuthority`,
  `ClanBoot`, `ClanOffice`). Member lists are linked nodes relinked in place; each command is a function on the world of
  clans, players and the rows of two tables, and a method on the heap proved to do to the world what that
  function says. The invariants hold over every run of commands, and `ClanStanding` says of each command who
  may give it about whom and what comes of it.
- **Random choices** (`Chance`, `Limbs`, `Soiling`). A program that draws numbers is a tree of draws, each
  uniform over its range, and the chance of an outcome is an exact rational.
- **Smaller algorithms** (`Assimilation`, `Grievances`, `Abilities`, `Recharging`, `Potions`, `Imprints`).
  Each has the source's loops as methods and its laws as lemmas, most of them over whole runs.

Some laws do not hold of the code as it stands for all inputs. Each is proved with its exact condition:

- A printed room or item is read back unchanged exactly when it is well formed (`RoomRoundTrip.RoundTripIff`,
  `ItemRoundTrip.RoundTripIff`). For items this excludes every bit vector, which the writer numbers from 0 and
  the reader from 1, and every weight under 0.0001 or from 10^16 on, which is printed with an exponent that the
  reader refuses; `ItemRoundTrip.TinySpoiled` and `ItemRoundTrip.HugeSpoiled` are such weights that the reader
  itself takes.
- A room file that is rewritten reads as the fixed rooms, and rewriting it once more changes nothing, exactly
  when the fixed rooms are well formed; of a file with no two carriage returns before a newline, exactly when no
  title has a carriage return with only full stops up to a newline, which go (`RoomFixes.RewrittenReads`,
  `RoomFixes.RewrittenTwice`, with such a title in `RoomFixes.DottedTitle`).
- A room file that is cut off inside a record, after its header, is rewritten as if that record were whole; the
  new file then reads as a whole one exactly when it was not cut off inside an exit (`RoomFiles.CutReads`).
- A clan command keeps table and lists in step exactly when it is not an administrator joining while still
  listed in another clan (`ClanRuns.ApplyInv`, with a run in `ClanBoot.AdminInTwoClans`).
- After a boot what runs rely on holds again exactly when no member has a rank above all that have names: the
  top rank itself is not stored (`ClanBoot.BootInv`, with a run in `ClanBoot.TopRankForgotten`).
- A command keeps every clan within the limit of 200 members exactly when it does not let somebody join or be
  enrolled where there are 200 already, because the limit is tested before the new member is counted
  (`ClanLimit.ApplyLimit`, over runs `ClanLimit.RunLimit`, with a join and an enrolment that pass the limit in
  `ClanLimit.PastTheLimit`).
- Grievances lapse after one day exactly as long as the time fits 32 bits (`Grievances.LapseAfterADay`).
- No spell comes from nowhere exactly when the prototype of mixed potions has none (`Potions.RunOk`,
  `Potions.SpellsFromNowhere`), and a liquid container is not overdrawn exactly when the variation of a low
  skill does not ask for more than is in it (`Potions.NotOverdrawn`, `Potions.OverdrawnToEndless`).
- What is moved by a recharge is not negative exactly when what is asked for, by name or as the battery's
  rate, is not (`Recharging.TransferIs`).

A merge of affects depends on their order and sign in a way its comment does not say
(`Assimilation.NotSymmetric`).

## Model

| member | source | states |
|---|---|---|
| Text.TildeRoundTrip | tools/tempusrooms.rb:243-254 | a text printed before a tilde is read back with the rest of the file untouched if and only if it holds no tilde and no carriage return just before a newline |
| Text.ReadPrintedTilde | tools/tempusrooms.rb:243-254 | what the reader makes of any printed text without a tilde: the text with its line ends normalised, and nothing of what follows is consumed |
| Text.ReadTildeCarried | tools/tempusrooms.rb:243-254 | whatever the tilde reader yields has no tilde, and if the text has no two carriage returns before a newline it can be printed and read again |
| Text.IntOfInt | tools/tempusrooms.rb:337-338 | a printed signed number converts back to itself |
| Text.MatchJoined | tools/tempusrooms.rb:280-284 | fields printed with one space between them are matched one by one by the field patterns, with the tail left over |
| Text.TrailingRead | tools/tempusrooms.rb:357-363 | an optional last field is read back as present or absent just as it was printed |
| Inputs.Input.Gets | tools/tempusrooms.rb:259-262 | one line is taken off the input with its line end dropped |
| Inputs.Input.ReadTildeStr | tools/tempusrooms.rb:243-254 | the line loop reads exactly what the specification of tilde texts says and leaves the rest in the input |
| RoomRoundTrip.RoundTripIff | tools/tempusrooms.rb:223-375 | printing a room and loading it gives that room and leaves the text behind it, if and only if the room is well formed |
| RoomRoundTrip.FileRoundTrip | tools/fixrooms.rb:106-117 | any list of well-formed rooms printed with the end mark is read back as the same rooms in order |
| RoomRoundTrip.FileRoundTripIff | tools/fixrooms.rb:106-117 | a list of rooms without tildes and with words where words are needed is read back as itself if and only if all of them are well formed |
| RoomRoundTrip.LoadedWellFormed | tools/tempusrooms.rb:256-375 | whatever text the loader accepts, in whatever order its sections come, the room can be printed but for carriage returns that line ends leave; of a text with no two carriage returns before a newline it is well formed |
| RoomRoundTrip.Reload | tools/tempusrooms.rb:223-375 | load, print and load again gives the same room with its line ends normalised, with any text behind it; of a text with no two carriage returns before a newline, just the same room |
| RoomRoundTrip.ReprintFile | tools/tempusrooms.rb:223-375 | printing the rooms of any accepted file as they are and reading that gives the rooms with their line ends normalised; of a file with no two carriage returns before a newline, the same rooms |
| Titles.CapitalizedTwice | tools/fixrooms.rb:51-79 | title case is idempotent, including the odd third letter of names in Mc |
| Titles.CapitalizedCarried | tools/fixrooms.rb:51-79 | a title case title can be carried by a tilde string if and only if no carriage return has only full stops between it and a newline |
| Titles.TitleLetters | tools/fixrooms.rb:54-76 | each character of a title by its place: a word begins with a large letter and goes on with small ones, but for the third after Mc, unless it is one of the little words and neither first nor after the end of a sentence, when it is all small; what is between words stays |
| Titles.EndDotsDropped | tools/fixrooms.rb:53 | exactly the full stops of runs that end a line are dropped |
| Titles.Capitalize | tools/fixrooms.rb:51-79 | the loop over words and gaps gives the title case text that is defined on words |
| RoomFixes.NoArtFormatted | tools/fixrooms.rb:89-94 | formatting a description that is no picture never makes one, so the same extra descriptions are left alone on a second pass |
| RoomFixes.FixedTexts | tools/fixrooms.rb:81-99 | which texts of a room are put into title case or laid out, under which conditions, from which words, and that nothing else changes |
| RoomFixes.FixRoomOk | tools/fixrooms.rb:81-99 | fixing brings in no tilde; a well-formed room is well formed after it if and only if its title allows |
| RoomFixes.FixRoomTwice | tools/fixrooms.rb:81-99 | a fixed room stays as it is when fixed again |
| RoomFixes.RewrittenReads | tools/fixrooms.rb:101-123 | whatever file is rewritten, the new one reads as the fixed rooms with line ends normalised, and as just the fixed rooms if and only if these are well formed; of a file with no two carriage returns before a newline, if and only if the titles allow |
| RoomFixes.RewrittenTwice | tools/fixrooms.rb:101-123 | rewriting a rewritten file changes nothing if and only if the fixed rooms are well formed; of a file with no two carriage returns before a newline, if and only if no title has only full stops between a carriage return and a newline |
| RoomFixes.DottedTitle | tools/fixrooms.rb:53 | with the title a, carriage return, full stop, newline, b in a file, the rewritten file does not read as the fixed room and a second rewriting changes it |
| RoomFiles.ProcessIs | tools/fixrooms.rb:101-123 | what is written of any file: all its rooms, fixed, if it can be read to its end; the same with what there was of the last record, closed as if it were whole, if the file is cut off after that record's header; only the rooms before a record cut off in its header |
| RoomFiles.ProcessFinished | tools/fixrooms.rb:101-123 | rewriting ends with all of the file read if and only if there is a rewritten file in the sense of RoomFixes.RewrittenReads, and then it is that one |
| RoomFiles.CutReads | tools/fixrooms.rb:109-116 | a file cut off after the header of a record is rewritten to one that reads as whole if and only if it is not cut off inside an exit |
| FixRooms.FixRecord | tools/fixrooms.rb:81-99 | the room object is fixed in place as the specification says, of a death trap only the title |
| FixRooms.ProcessFile | tools/fixrooms.rb:101-123 | the loop that loads, fixes and prints room after room writes what the specification says of any file, whole, cut off or broken |
| RoomRoundTrip.ReadBack | tools/tempusrooms.rb:223-375 | what loading makes of the printed form of any printable room: the room with its line ends normalised |
| RoomRoundTrip.ExitRead | tools/tempusrooms.rb:312-324 | the machine takes the printed form of an exit into the table of directions |
| RoomRoundTrip.SearchRead | tools/tempusrooms.rb:340-366 | the machine takes the printed form of a search, with or without a failure field, and appends it |
| RoomRoundTrip.ExitsRestored | tools/tempusrooms.rb:231 | exits written in order of direction and entered one by one make the same table |
| RoomRoundTrip.SortedKeysAll | tools/tempusrooms.rb:231 | the sorted directions are all directions, strictly ascending |
| RoomRoundTrip.RunOk | tools/tempusrooms.rb:256-375 | every state of every run holds only texts, flags and numbers that can be printed |
| RoomRecord.RoomRecord.ToS | tools/tempusrooms.rb:223-241 | the accumulating printer writes the text of the room's value |
| RoomRecord.RoomRecord.Load | tools/tempusrooms.rb:256-375 | the line loop ends in the outcome of the state machine with its room in the fields, whether it returns, raises or runs out of input |
| RoomRecord.RoomRecord.TakeTilde | tools/tempusrooms.rb:270-278 | a text goes to the field that the state asks for and the state moves on |
| RoomRecord.RoomRecord.TakeLine | tools/tempusrooms.rb:263-311 | one line changes state and fields as the machine does |
| RoomRecord.SearchToS | tools/tempusrooms.rb:50-63 | a search is printed with its failure field only when it has one |
| ItemRoundTrip.RoundTripIff | tools/tempusobjs.rb:222-365 | printing an item and loading it, with the next record's number line or the end mark behind it, gives the item and hands that number over, if and only if the item is representable: no bit vector, a weight of 0 or in 0.0001..10^16, fourth value not negative, well-formed fields |
| ItemRoundTrip.FileRoundTrip | tools/tempusobjs.rb:385-404 | any list of well-formed items printed one after the other and closed by the end mark is read back in order, although each load consumes the next number line |
| ItemRoundTrip.LoadedRepresentable | tools/tempusobjs.rb:259-365 | whatever text the loader accepts, the item can be printed but for carriage returns, bit vectors and weights; of a text with no two carriage returns before a newline it is representable if and only if it has no bit vector and a weight printed without exponent, weights being exact numerals: not so for 9999999999999999, which is rounded to 10^16 |
| ItemRoundTrip.ReadBitsSame | tools/tempusobjs.rb:237-239 | the bit vectors that survive writing and reading are only the empty ones: one index is 0-based, the other 1-based |
| ItemRoundTrip.ZeroRefused | tools/tempusobjs.rb:355-359 | an item whose bit vector 0 is set is refused when read back into an empty array |
| Weights.WeightRead | tools/tempusobjs.rb:232-233 | a weight is printed in the characters that the reader takes if and only if it is 0 or in 0.0001..10^16, and then it is read back as itself |
| ItemRoundTrip.WeightRefused | tools/tempusobjs.rb:313-316 | an item whose weight is printed with an exponent is refused when read back |
| ItemRoundTrip.TinySpoiled | tools/tempusobjs.rb:313-316 | 0.00001 is read as a weight, printed as 1.0e-05 and then refused |
| ItemRoundTrip.HugeSpoiled | tools/tempusobjs.rb:313-316 | 10000000000000000 is read as a weight, printed as 1.0e+16 and then refused |
| ItemRoundTrip.ItemsRead | tools/tempusobjs.rb:395-400 | the loop over records reads all of them from any point in the file |
| ItemRoundTrip.FourthValue | tools/tempusobjs.rb:301-305 | the line of values is read with a fourth value of 0 when that is missing or negative, and else with that one |
| ItemRoundTrip.RunOk | tools/tempusobjs.rb:259-365 | every state of every run holds only what can be printed |
| ItemRecord.ItemRecord.ToS | tools/tempusobjs.rb:222-244 | the accumulating printer writes the text of the item's value |
| ItemRecord.ItemRecord.Load | tools/tempusobjs.rb:259-365 | the line loop ends in the outcome of the state machine, with the item in the fields and the next number as result |
| ItemRecord.SkipLines | tools/tempusobjs.rb:390-391 | lines before the first number line are skipped |
| ItemRecord.ReadObjectFile | tools/tempusobjs.rb:385-404 | the file loop yields the items of the specification, or how it failed |
| ClanList.SortCorrect | src/clan/clan.c:1834-1863 | the sorted list is a permutation of the members in non-increasing order of rank |
| ClanList.SortStable | src/clan/clan.c:1834-1863 | members of one rank keep their order |
| ClanList.SortUnique | src/clan/clan.c:1834-1863 | the two facts above leave only one arrangement |
| ClanList.Clan.SortClanMembers | src/clan/clan.c:1834-1863 | relinking in place leaves a well-formed list of the same nodes whose members are the sorted ones |
| ClanList.Clan.InsertNode | src/clan/clan.c:1844-1861 | one node is linked behind every node that it does not outrank |
| ClanList.Clan.RemoveMember | src/clan/clan.c:59-65 | one node is unlinked and the rest of the list stays |
| ClanList.Clan.RealClanMember | src/clan/clan.c:931-943 | the first node with the number, or none exactly when nobody listed has it |
| ClanList.Clan.MemberCount | src/clan/clan.c:67-77 | the number of members |
| ClanList.Clan.ClampRanks | src/clan/clan.c:1157-1161 | every rank above the new top rank becomes the top rank, and nothing else changes |
| ClanRuns.ApplyInv | src/clan/clan.c:231-657 | a command keeps the invariant if and only if it is admissible: sorted lists without repeated numbers, ranks in 0..top rank, clan fields that name the listing clan, and table rows equal to the lists |
| ClanRuns.RunInv | src/clan/clan.c:231-657 | the invariant over every run of admissible commands, from any state that has it |
| ClanRuns.JoinInv | src/clan/clan.c:283-361 | joining keeps the invariant exactly when the one who joins is not still listed in another clan, which only an administrator can be |
| ClanRuns.EnrollInv | src/clan/clan.c:231-281 | enrolling, with the repairs that its test makes, keeps lists, clan fields and table in step |
| ClanRuns.DismissInv | src/clan/clan.c:387-483 | the same for dismissing |
| ClanRuns.ResignInv | src/clan/clan.c:484-520 | the same for resigning, which also gives up ownership |
| ClanRuns.PromoteInv | src/clan/clan.c:522-564 | the same for promoting, below and at the top rank |
| ClanRuns.DemoteInv | src/clan/clan.c:566-630 | the same for demoting |
| ClanRuns.ClanMailInv | src/clan/clan.c:633-657 | the mail flag changes in list and table alike |
| ClanRuns.SetTopInv | src/clan/clan.c:1146-1163 | clamping without sorting keeps the list sorted and in bounds, and the table follows |
| ClanRuns.SetTitleInv | src/clan/clan.c:1174-1206 | naming a rank leaves members and their table alone |
| ClanTitles.ApplyTitled | src/clan/clan.c:1146-1206 | every command keeps the rows of clan_ranks equal to the names of ranks in memory, none of them above the top rank |
| ClanTitles.RunTitled | src/clan/clan.c:1146-1206 | the same over every admissible run |
| ClanTitles.SetTopTitled | src/clan/clan.c:1146-1165 | lowering the top rank drops names and rows alike |
| ClanTitles.SetTitleTitled | src/clan/clan.c:1190-1200 | a name is inserted or updated in memory and table alike |
| ClanRuns.RemoveInv | src/clan/clan.c:1452-1482 | removing a listed member and its row keeps them in step |
| ClanRuns.DeleteInv | src/clan/clan.c:1655-1711 | deleting a clan leaves the other lists and rows as they were |
| ClanRuns.CreateInv | src/clan/clan.c:1603-1644 | a new clan, wherever it is put in the list, changes no membership |
| ClanStanding.DismissWho | src/clan/clan.c:154-187 | a player is dismissed if and only if by an administrator, by the owner of their clan, or by its leader when of higher rank and the player is no leader; clan, leadership and every row go, and nothing else |
| ClanStanding.ResignWho | src/clan/clan.c:484-520 | a player who confirms it, and only such a one, loses clan, leadership, rows and ownership |
| ClanStanding.EnrollWho | src/clan/clan.c:90-152 | a player character without a clan becomes a member if and only if enrolled by an administrator, or, when eligible and the clan is not full, by its owner or leader |
| ClanStanding.JoinWho | src/clan/clan.c:283-361 | a player joins if and only if as an administrator, or without a clan, eligible, and with the password of a clan that has one and is not full |
| ClanStanding.PromoteWho | src/clan/clan.c:189-229 | of two members of one clan, one promotes the other if and only if administrator, owner, or another member who leads or has the higher rank; the rank rises by one or, at the top, the player becomes a leader, and nothing else changes |
| ClanStanding.PromoteOnlyFellows | src/clan/clan.c:522-564 | only members of one clan promote one another |
| ClanStanding.DemoteWho | src/clan/clan.c:566-630 | a member above rank 0 falls by one rank if and only if by their own wish or, when no leader, by that of a leader or administrator of higher rank in the clan |
| ClanStanding.DemoteOnlyFellows | src/clan/clan.c:566-630 | only members of one clan demote one another |
| ClanStanding.ClanMailWho | src/clan/clan.c:633-657 | a member switches the mail flag to its opposite, and nobody else switches anything |
| ClanStanding.SetTopWho | src/clan/clan.c:1134-1172 | a top rank of 0..10 set by somebody who may edit the clan takes all higher ranks down to it and drops their titles; anything else is refused |
| ClanStanding.SetTitleWho | src/clan/clan.c:1174-1206 | a rank up to the top rank gets a name of 1..47 characters by somebody who may edit the clan, and no other rank does |
| ClanStanding.RemoveWho | src/clan/clan.c:1452-1482 | an edit takes out the member named and only that one |
| ClanStanding.DeleteWho | src/clan/clan.c:1655-1711 | a disbanded clan goes with its rows and titles, and its members in the game lose it |
| ClanStanding.CreateWho | src/clan/clan.c:1603-1644 | a new clan comes in if and only if its number is in 1..255 and not taken, and keeps the list in ascending order if it is |
| ClanStanding.MemberAfter | src/clan/clan.c:231-657 | after any command somebody is a member if and only if they were and are not dismissed by one who may, do not resign and are not edited out, or they are enrolled or join by the rules |
| ClanStanding.RunStays | src/clan/clan.c:231-657 | over any run in which nobody who may dismisses a member, who neither resigns nor is edited out, the member stays |
| ClanStanding.RunStaysOut | src/clan/clan.c:231-657 | over any run in which nobody who may enrolls a player, who does not join by the rules, the player stays out |
| ClanAuthority.OrdinaryPromote | src/clan/clan.c:189-229 | someone who is not owner, leader or administrator raises a member at most to their own rank and makes no leader |
| ClanAuthority.OrdinaryRunKeeps | src/clan/clan.c:522-564 | over a run in which only such members promote, nobody becomes a leader and no clan gets a higher rank than it had |
| ClanLimit.ApplyLimit | src/clan/clan.c:138-141 | with all clans within a bound, any command keeps them there if and only if it does not add a member, by joining or enrolling, to a clan that has so many others already |
| ClanLimit.RunLimit | src/clan/clan.c:330-333 | the same for every state of a run |
| ClanLimit.RunSmall | src/clan/clan.c:138-141 | while no administrator adds members, no clan exceeds 201 members over any run |
| ClanLimit.PastTheLimit | src/clan/clan.c:330-333 | a world that keeps the invariant with a clan of exactly 200 members, where joining with the password and being enrolled by the owner both make 201 |
| ClanBoot.BootClan | src/clan/clan.c:1564-1583 | rebuilding from the rows gives each clan exactly its members in non-increasing order of rank |
| ClanBoot.BootRanksAre | src/clan/clan.c:1554-1562 | a boot finds all names of ranks, and takes the highest rank that has one for the top rank |
| ClanBoot.BootInv | src/clan/clan.c:1554-1583 | a boot restores all members by rank and all names; everything that runs rely on holds again if and only if no member has a rank above all that have names |
| ClanBoot.RunThenBoot | src/clan/clan.c:1554-1583 | the same after any run of commands |
| ClanBoot.TopRankForgotten | src/clan/clan.c:1560 | a run of two commands after which a boot puts a member above the top rank |
| ClanBoot.AdminInTwoClans | src/clan/clan.c:303-360 | a run of two commands after which a listed administrator has no row |
| ClanOffice.Office.Enroll | src/clan/clan.c:231-281 | on the linked clans, enrolling does to the world exactly what the rule says |
| ClanOffice.Office.CanEnroll | src/clan/clan.c:90-152 | the test for enrolling, with its repairs of clan field and list |
| ClanOffice.Office.Join | src/clan/clan.c:283-361 | joining on the linked clans follows the rule |
| ClanOffice.Office.CanDismiss | src/clan/clan.c:154-187 | the test for dismissing changes nothing and answers by the rule |
| ClanOffice.Office.Dismiss | src/clan/clan.c:387-483 | dismissing on the linked clans follows the rule |
| ClanOffice.Office.Resign | src/clan/clan.c:484-520 | resigning on the linked clans follows the rule |
| ClanOffice.Office.CanPromote | src/clan/clan.c:189-229 | the test for promoting changes nothing and answers by the rule |
| ClanOffice.Office.Promote | src/clan/clan.c:522-564 | promoting on the linked clans follows the rule |
| ClanOffice.Office.Demote | src/clan/clan.c:566-630 | demoting on the linked clans follows the rule |
| ClanOffice.Office.ClanMail | src/clan/clan.c:633-657 | the mail flag on the linked clans follows the rule |
| ClanOffice.Office.SetTop | src/clan/clan.c:1134-1172 | setting the top rank on the linked clans follows the rule |
| ClanOffice.Office.SetTitle | src/clan/clan.c:1174-1206 | naming a rank on the linked clans follows the rule |
| ClanOffice.Office.RemoveListed | src/clan/clan.c:1452-1482 | removing a member on the linked clans follows the rule |
| ClanOffice.Office.Delete | src/clan/clan.c:1655-1711 | deleting a clan follows the rule |
| ClanOffice.Office.Create | src/clan/clan.c:1603-1644 | creating a clan puts it where the rule says |
| ClanOffice.Office.Execute | src/clan/clan.c:231-657 | any command on the linked clans does to the world what the rules say, so the run theorems hold of the heap |
| ClanOffice.Office.BootMembers | src/clan/clan.c:1564-1583 | linking a node in front for each row gives the lists of the specification |
| ClanOffice.Office.BootRanks | src/clan/clan.c:1554-1562 | raising top ranks and storing names for each title gives the ranks of the specification |
| ClanOffice.Office.Boot | src/clan/clan.c:1554-1583 | both loops one after the other give the world after a boot |
| Wrap.FormatDesc | tools/fixrooms.rb:10-45 | stripping, spacing, splitting and the loop over words together give the formatted text that is defined on tokens alone |
| Wrap.SplitText | tools/fixrooms.rb:11-18 | stripping, putting a space after each run of stops and splitting at white space yields exactly the tokens |
| Wrap.KeptIs | tools/fixrooms.rb:17-21 | what is kept is the text without "very" and then without consecutive repeats |
| Wrap.TokensCut | tools/fixrooms.rb:15-18 | a text is cut into words at white space, after a run of stops and, where a quote follows that, after the quote |
| Wrap.TokenWhole | tools/fixrooms.rb:15-18 | and nowhere else: a text without such a place is one word |
| Wrap.TokensFormatted | tools/fixrooms.rb:10-45 | the words of the formatted text are exactly the kept ones, in order |
| Wrap.FormatAgain | tools/fixrooms.rb:10-45 | formatting is idempotent, and after several passes only the last indentation matters |
| Wrap.FormattedLayout | tools/fixrooms.rb:22-37 | cut at its newlines, the formatted text is lines of words, the last of them ended too: two spaces stand after a word that ends a sentence and one after any other, every word had room on its line, no line could have taken the first word of the next, and every line is one word or at most 71 characters |
| Chance.CountdownFair | src/classes/act.physic.c:706-732 | each of n eligible entries is chosen with chance exactly 1/n, and there is no result only when none is eligible |
| Chance.PickInTwoPasses | src/classes/act.physic.c:765-786 | the two loops with their countdown yield what the tree of draws says; a result exactly when something is eligible, and an eligible one |
| Chance.ReservoirFair | src/combat/combat_utils.c:451-474 | each of n eligible positions is chosen with chance exactly 1/n |
| Soiling.Creature.PickPos | src/combat/combat_utils.c:451-474 | the one-pass pick over positions follows the tree of draws and picks one that can be soiled |
| Soiling.Creature.ApplyAt | src/combat/combat_utils.c:483-506 | the soil comes to just the one place meant, which lacked it, or nothing changes; the pool of blood dries |
| Soiling.Creature.Apply | src/combat/combat_utils.c:447-507 | with a random position and no object the result is 0 exactly when no position can be soiled, and otherwise exactly one place is soiled |
| Limbs.OneBucket | src/combat/combat_utils.c:547-551 | every roll from 1 to the sum falls in exactly one bucket |
| Limbs.LimbChance | src/combat/combat_utils.c:510-576 | each limb has the chance of its own weight over the sum; without a shield its weight goes one third to the arms and two thirds to the body |
| Limbs.LimbTable.Build | src/combat/combat_utils.c:537-544 | the in-place sums are the prefix sums of the weights |
| Limbs.LimbTable.Find | src/combat/combat_utils.c:547-556 | the search ends in the bucket of the roll, so the overflow branch is never taken |
| Limbs.LimbTable.Choose | src/combat/combat_utils.c:530-576 | the result follows the tree of draws, is a limb that can be hit, and a built table is left unchanged |
| Limbs.WeightSum | src/combat/combat_utils.c:500-528 | the weights sum to 234 and no place that cannot be hit has any |
| Assimilation.AfterOk | src/classes/act.cyborg.c:3513-3619 | consuming an object leaves other affects alone, keeps one non-zero affect for each location within the bound of the slots, and makes each modifier the fold of the merge rule over its slots |
| Assimilation.RunOk | src/classes/act.cyborg.c:3513-3619 | over any run of consuming and deassimilating, each modifier is the fold of the merge rule over all slots consumed at its location since it was last cleared, one non-zero affect for each location, none beyond the largest slot, other affects untouched |
| Assimilation.NotSymmetric | src/classes/act.cyborg.c:3566-3579 | after a cancellation a positive slot is lost where a negative one counts |
| Assimilation.CombinedIs | src/classes/act.cyborg.c:3566-3579 | two modifiers on one side of 0 leave the larger, on different sides their sum; 0 gives way only to a negative one |
| Assimilation.MergedElse | src/classes/act.cyborg.c:3558-3611 | the affect at the slot's location gets the new level and duration, one is added only if there was none, and the others stay |
| Assimilation.Cyborg.PerformAssimilate | src/classes/act.cyborg.c:3513-3619 | the loops over slots and affects give the specified list, and the result tells whether a location was new |
| Assimilation.Cyborg.MergeSlot | src/classes/act.cyborg.c:3558-3611 | one slot merged in the array of copies |
| Assimilation.Cyborg.DoDeassimilate | src/classes/act.cyborg.c:3711-3739 | all assimilated affects go for 10 mana, or nothing changes |
| Grievances.PkGainPositive | src/combat/pvp.c:101-136 | a gain is 0 exactly for the same person or a non-player, and otherwise at least 1 |
| Grievances.PkGainMonotone | src/combat/pvp.c:101-136 | the stronger the offender and the weaker the victim, the more an offence costs |
| Grievances.PkGainIs | src/combat/pvp.c:101-136 | what killing costs in all cases: 10 and a fifth of the lead, twice for an innocent victim, 9 for each remort ahead, a quarter for a criminal one, at least 1 |
| Grievances.ChargeIs | src/combat/pvp.c:200-280 | a murder is charged in full, an attack at a fifth and a theft at a tenth, each at least 1 |
| Grievances.RunConserves | src/combat/pvp.c:174-363 | over any run, what a victim held and charged equals what it holds, gave back and let lapse |
| Grievances.RunReputation | src/combat/pvp.c:174-363 | over any run, a reputation moves by exactly what was charged less what was refunded: the floor at 0 never cuts anything off |
| Grievances.RefundedIs | src/combat/pvp.c:319-340 | giving back grievance by grievance comes to the sum, down to 0 |
| Grievances.AccountRefundedIs | src/db/account.c:721-732 | the same for the account of a player |
| Grievances.OwedPardoned | src/combat/pvp.c:317-345 | a pardon clears all that is held against one player and nothing held against another |
| Grievances.PardonTwice | src/combat/pvp.c:317-345 | a second pardon changes nothing |
| Grievances.PardonExpire | src/combat/pvp.c:317-363 | pardon and expiry leave the same list in either order, and the refunds differ by exactly what lapsed |
| Grievances.LapseAfterADay | src/combat/pvp.c:347-363 | the cut-off is a day ago if and only if that time fits 32 bits |
| Grievances.Player.RemoveIf | src/combat/pvp.c:294-308 | removing links in place leaves exactly the grievances that do not meet the criterion, in order |
| Grievances.Player.PerformPardon | src/combat/pvp.c:317-345 | the refund loop and the removal do what the ledger says |
| Grievances.Player.Offended | src/combat/pvp.c:188-292 | an attack, murder or theft charges and notes the same amount, or nothing in the excepted cases |
| Grievances.Players.Happen | src/combat/pvp.c:174-363 | every event does to the players in memory what the ledger says of their accounts, so the run theorems hold of them |
| Grievances.Player.GainReputation | src/structs/creature.c:1551-1572 | a reputation changes by the amount but not below 0, that of a lower-level player's account too, and those of a non-player not at all |
| Abilities.RolledTables | src/classes/char_class.c:594-610 | the tables that the rounds can produce are exactly those of six entries in 3..18 that sum to 72 |
| Abilities.NeverStuck | src/classes/char_class.c:602-609 | there is always an entry to raise and then one to lower, so redrawing can end |
| Abilities.RollTable | src/classes/char_class.c:594-610 | the drawing loops leave just the table that the draws yield, and come to an end if and only if the draws suffice |
| Abilities.RollStep | src/classes/char_class.c:600-609 | what a round makes of the draws: those of entries at 18 are passed over and the next entry is raised, those of entries at 3 are passed over and the next is lowered, and the following rounds have the draws behind |
| Abilities.RollStuck | src/classes/char_class.c:600-609 | without a draw that the round can use there is no table |
| Abilities.SomeRoll | src/classes/char_class.c:594-610 | the tables that some draws yield are exactly those of six entries in 3..18 that sum to 72 |
| Abilities.Exchange | src/classes/char_class.c:615-619 | three exclusive-or steps exchange two entries |
| Abilities.XorTwice | src/classes/char_class.c:616-618 | exclusive or undoes itself, which is what the exchange rests on |
| Abilities.SortTable | src/classes/char_class.c:612-621 | the table ends in descending order, a permutation of what it was |
| Abilities.DealtAll | src/classes/char_class.c:623-748 | for every class each ability gets an entry of its own: their total is that of the table |
| Abilities.Character.DealOut | src/classes/char_class.c:623-748 | the entries go to the abilities in the order of the class |
| Abilities.Character.RollRealAbils | src/classes/char_class.c:588-748 | the abilities in the order of the class are the table that the draws yield, sorted: in 3..18, of total 72, descending; nothing changes if and only if the draws do not suffice |
| Recharging.TransferIs | src/classes/act.cyborg.c:153-225 | the amount moved is the largest that is asked for, stored, has room and is paid for; it is not negative exactly when what is asked for is not |
| Recharging.TransferRefused | src/classes/act.cyborg.c:158-189 | a recharge is refused if and only if there is no target, or the source is a battery for sale that has something of what is asked for and the cash does not pay for one unit |
| Recharging.TransferFull | src/classes/act.cyborg.c:158-211 | if it is there, paid for and fits, what is asked for is moved: the amount named, the battery's rate, or by level and remorts |
| Recharging.Move | src/classes/act.cyborg.c:190-218 | what the source loses the target gains, and if they are the same nothing changes |
| Recharging.PerformRecharge | src/classes/act.cyborg.c:153-245 | energy is conserved in all cases of battery, self, creature and engine, also when they coincide; ranges hold and the cash pays for what is moved without going negative |
| Recharging.FromSource | src/classes/act.cyborg.c:158-183 | the successive caps on the amount, and the refusal when the cash buys nothing |
| Potions.CombinedSpells | src/classes/act.merc.c:1177-1222 | two potions that do not explode give one of a level in 1..49 with exactly the spells of both and those left in the prototype's slots behind |
| Potions.CombinedIs | src/classes/act.merc.c:1193-1222 | the level of a mixture is the skill's share of both levels, cut to 1..49, and its slots take the spells of both potions in turn |
| Potions.CombineVials | src/classes/act.merc.c:1177-1235 | filling the slots of the mixed potion in place stays within the third slot and gives the combined potion; both others are used up |
| Potions.DistilledOnce | src/classes/act.merc.c:1436-1481 | distilling leaves a stronger potion of at most its first spell, or none, and cannot be repeated |
| Potions.DistilledIs | src/classes/act.merc.c:1436-1481 | for each spell that distilling takes the level rises by the same boost, and what comes above 49 is gone |
| Potions.PouringIs | src/classes/act.merc.c:1290-1345 | when something is poured, and how much |
| Potions.OverdrawnToEndless | src/classes/act.merc.c:1332-1381 | with a low skill, pouring the last 3 units can leave -1, which means an endless container |
| Potions.TransmutedThrice | src/classes/act.merc.c:1527-1530 | three transmutes are the identity, and one keeps the spells |
| Potions.TransmutedIs | src/classes/act.merc.c:1519-1530 | from a skill of 80 on each slot moves up by one and the first to the end, and below it nothing does |
| Potions.RunOk | src/classes/act.merc.c:1177-1530 | over any run every potion left has a level in 1..49, and if the prototype has no spell no spell comes from nowhere |
| Potions.SpellsFromNowhere | src/classes/act.merc.c:1193-1222 | two potions without spells combine to one without if and only if the prototype has none |
| Potions.Vial.Dilute | src/classes/act.merc.c:1290-1387 | diluting in place changes potion and container as the specification says, which spoils the potion without taking from the container |
| Potions.Vial.Distill | src/classes/act.merc.c:1436-1481 | distilling in place follows the specification |
| Potions.Vial.Transmute | src/classes/act.merc.c:1519-1530 | rotating the slots in place follows the specification |
| Imprints.Physic.PushImprint | src/classes/act.physic.c:440-458 | shifting the array adds the room to the queue and keeps the newest ones up to the limit; used entries stay in front |
| Imprints.Physic.PopImprint | src/classes/act.physic.c:460-477 | the last used entry is the oldest room of the queue, which it leaves |
| Imprints.FirstInFirstOut | src/classes/act.physic.c:440-477 | in any run with any limits the queue, followed by what has left it in reverse, is what was pushed over what it held: rooms leave in the order in which they came |
| Imprints.NewestPushed | src/classes/act.physic.c:440-477 | for any run and any limits, the queue is a beginning of the rooms pushed, newest first, over what it held |
| Imprints.NothingLost | src/classes/act.physic.c:440-477 | as long as no push finds the queue full, what was popped is exactly the oldest rooms pushed, in order; pops of an empty queue take nothing |

## Left out

- Database statements, file access, messages, logs, colours and editors; the clan_members and clan_ranks tables are sets of rows.
- Administrators' `cedit add member` and `cedit set member`, which bypass sorting, bounds and clan fields; clan number 0.
- ClanBoot.BootInv: the owner of a clan is taken over from memory, because resigning does not change the stored one (src/clan/clan.c:503-511).
- The authorisation test of `cedit` only prints a message, so the model has no such test (src/clan/clan.c:986-988);
  clans are named by number, not by abbreviated name.
- Dismissing a summoned creature, which has nothing to do with clans (src/clan/clan.c:400-426), and `remove_char_clan`.
- ClanOffice.Office.Execute: the list of clans is a sequence of clan objects, players are values and the names of
  ranks a sequence, so the next pointers between clans and the array of names are not modelled.
- FixRooms.ProcessFile: of a record cut off in its header, right after the title or the description, the source
  prints that much with a blank zone number, and the end mark; the model stops before that record.
- Titles.Capitalize: letters are those of ASCII; case mapping of others is not modelled.
- Weights.WeightRead: within the range and outside it, weights are decimal numerals; the rounding of a floating
  point number to 17 digits is not modelled, so 9999999999999999, which is rounded to 10^16 and printed with an
  exponent, counts as printable.
- ItemRecord.ReadObjectFile: a file without an end mark makes the source loop for ever; the model says so as a result of its own.
- Wrap.FormatDesc: characters with the code 0, which stripping also removes, are taken not to occur; the counting of changes
  is left out.
- Chance.PickInTwoPasses: which rooms and zones are eligible is an input, and the tests for it are left out.
- Chance.ReservoirFair: the random number function is taken to be uniform over its range.
- Abilities.RollTable: draws are a finite sequence and running out of them is a result, where the source draws on.
- Abilities.Character.RollRealAbils: race and human bonuses added afterwards are left out.
- Assimilation.Cyborg.PerformAssimilate: the effects on ability scores of putting affects on and off are left out.
- Grievances.RunReputation: is about a player's own reputation; that of an account, which several characters share, is
  only followed through one change or pardon. Who is responsible for a charmed offender, bounties, arenas and criminal
  status are inputs.
- Recharging.PerformRecharge: numbers are unbounded; wait states, damage to the battery and messages are left out.
- Potions.Vial.Dilute: the random variation of a low skill is an input; names of containers are left out.
- Potions.CombineVials: an explosion only means that the potion is gone.
- Skills, levels and laboratories enter as numbers; the formulas behind them are left out.
