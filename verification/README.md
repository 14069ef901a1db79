# The address book of Claws Mail: model and proofs

The project models the address book's object graph and the code that rewrites it, together with
the file it is kept in, the harvester that fills it, and the scanners and child processes of the
actions.  An address cache holds a forest (a root folder, folders in folders, persons and groups
in folders, emails under persons) and a hash table from uids to objects, and groups refer to
emails that persons own.  What is proved is, above all, that the operations keep the three
views in agreement, what each rewriting does to the whole graph, and that a book is read back
as it was written.

Where the source updates an object the model does too: `AddressCache`, `XmlFile`, `TagWriter`,
`AddressBookFile`, `Children` and `AddressHarvester` are classes with the source's fields, and
its loops are loops.  Each method is proved to take the object's whole state (`View()`) to the
value of a function, and the results about runs, trees, round trips and counts are lemmas about
these functions.  Objects of the C heap are items at handles; `top` is the next unused handle,
and freeing an item takes it out of the heap map.

| files | what they model |
|---|---|
| `items`, `cache_state` | items and lists; the cache, its invariant, the ancestor relation |
| `cache_prune`, `cache_contract`, `cache_forest`, `cache_edit` | deleting a subtree, removing a folder only, moving, adding |
| `addr_cache`, `cache_runs` | the class `AddressCache`; whole runs of its operations |
| `clip_move`, `clip_tree`, `clip_grow`, `clip_copy`, `clip_folder`, `clip_paste`, `clip_delete`, `clip_cut` | the clipboard: move, deep copy, delete, cut across books |
| `addr_merge`, `addr_relink` | merging persons; replacing a person's addresses |
| `xml_file`, `index_fragment` | the tag reader; fragments of the address index |
| `book_doc`, `book_parse`, `book_resolve`, `book_link`, `book_write`, `book_file`, `book_round`, `book_same`, `book_kept`, `book_format` | the book's file: document, parser, resolution, writer, round trip, its form tag by tag |
| `book_unique`, `book_records`, `book_order`, `book_sound` | files in which no uid is used twice: what is loaded, what comes back, order of the records, agreement |
| `book_nest` | which files are read only halfway |
| `book_disk`, `book_normal`, `book_tidy`, `book_exact` | agreement with the disk over runs; when the file is what the book would write |
| `action_scan`, `action_meaning` | the two scanners of an action string, and what its directives mean |
| `action_children`, `action_output` | the child processes of an action; what is launched, and output |
| `harvest_scan`, `addr_harvest`, `harvest_homes` | cutting up header lines; harvesting into folders of limited size |

## What the code does that its documentation does not say

- `addrbook_update_address_list` drops emails from a local copy of a group's list head
  (src/addrbook.c:1439, 1481).  If a group's first member is dropped the group keeps a pointer to
  a freed node; `AddrRelink.UpdateAddressList` says exactly when, `FirstMemberDropped` gives a book.
  Where its comments speak of just one e-mail address (src/addrbook.c:1466) the test is for one
  different address in lower case, and that is modelled.
- The same function can make a group refer to one new email twice, which later removal of only
  the first reference (src/addrcache.c:707) does not expect: `AddrRelink.MembersRunTogether`.
- `send_input` does not look whether a press is pending (src/action.c:1117-1125).  A second press
  loses the first one's source, which can outlive the record: `ActionChildren.PressTwice`,
  `LostForever`, `PressedTwiceAndEnded`.
- A file that is no address book at all leaves the book marked as read and unchanged
  (src/addrbook.c:914-951): `BookDisk.ForeignFileCountsAsRead`.  So do books of another origin
  with white space around a text, doubled uids or stray references; `BookExact.ReadExact` and
  `ExactStep` say exactly which files are not what the book would then write.
- `addrcache_folder_move_folder` has no check for cycles; the clipboard's guard is exactly what is
  missing: `CacheRuns.MoveGuardExact`.
- `addrcache_folder_add_folder` reports success also when the uid was taken
  (src/addrcache.c:414-427): `AddrCache.AddressCache.FolderAdd`.

## Model

| member | source | states |
|---|---|---|
| `Items.RemoveFirstIsWithout` | src/addrcache.c:698-710 | Group clean-up takes out the first reference only; on a list without repetitions that leaves none |
| `Items.DecimalInjective` | src/addrcache.c:119-122 | Different counters print differently, so uids that are allocated one after the other differ |
| `Items.DecimalReads` | src/addrcache.c:119-122 | A counter is printed in decimal digits that read as the counter again, without a zero in front |
| `CacheState.NoCycle` | src/addrcache.c:949-1000 | In a forest with a root no parent chain comes back to where it started |
| `CacheState.SubShrinks` | src/addrcache.c:949-1000 | A child's subtree is strictly smaller than its parent's: the measure by which recursive deletion ends |
| `CachePrune.PruneInv` | src/addrcache.c:645-758 | Taking out any item but the root, with all that lies below it, from hash, lists and groups leaves a cache in full agreement |
| `CachePrune.PruneReaches` | src/addrcache.c:949-1000 | What is not below the deleted item has the same ancestors as before |
| `CachePrune.PruneSub` | src/addrcache.c:949-1000 | After a child has been deleted exactly the child's subtree is missing below the folder |
| `CachePrune.PruneAbsorbs` | src/addrcache.c:949-1000 | Deleting something below a folder first and then the folder is the same as deleting the folder at once |
| `CacheEdit.InsertInv` | src/addrcache.c:396-445 | Adding a person, group or folder keeps the agreement, whether its uid is new, one that the counter will not give out, or taken already, so that the hash refuses it |
| `CacheEdit.InsertReaches` | src/addrcache.c:396-445 | Adding an item changes no ancestor of an old item |
| `CacheEdit.TickInv` | src/addrcache.c:119-122 | The next uid is in no use: freshness of generated uids is part of the invariant and is kept by the counter |
| `CacheEdit.AddEmailInv` | src/addrcache.c:469-482 | Giving a person an email that nobody holds keeps the agreement, also when another email has its uid and it is refused |
| `CacheEdit.JoinInv` | src/addrcache.c:506-514 | Putting an owned email in a group keeps the agreement; it is referred to once however often it is added |
| `CacheEdit.DetachInv` | src/addrcache.c:674-787 | Removing an email from person and hash, as the callers pair the two calls, keeps the agreement; no group refers to it any more |
| `CacheForest.MoveInv` | src/addrcache.c:540-598 | A move that the clipboard's guard allows keeps hash, lists, groups and rootedness in agreement |
| `CacheForest.MoveReaches` | src/addrcache.c:540-598 | The ancestor relation after a move, in full: what was below the moved item is now below it and below the target's ancestors, nothing else has changed |
| `CacheForest.UnguardedMoveUproots` | src/addrcache.c:584-598 | Without the guard the forest is lost: a folder moved into its own subtree is no longer below the root |
| `CacheContract.ContractReaches` | src/addrcache.c:895-942 | Removing a folder but not its contents is a contraction: of any two remaining items one is above the other afterwards exactly if it was before |
| `CacheContract.ContractInv` | src/addrcache.c:895-942 | and the contracted cache is in full agreement, with the children at the end of the parent's lists |
| `CacheRuns.RunAgreement` | src/addrcache.c:339-1070 | Main result on the cache: after any run of the public operations from a new cache, with nothing asked of the states on the way but what a caller of each operation can see, each hash entry is keyed by its object's uid, each person, group and folder but the root is hashed and in exactly its parent's list and once, parent chains end at the root and have no cycle, hashed emails and members of groups are held by their person |
| `CacheRuns.RunInv` | src/addrcache.c:339-1070 | The induction behind it: from any state in agreement each allowed operation leads to one in agreement, so the whole run does, and the root stays |
| `CacheRuns.MoveGuardExact` | src/addrclip.c:587-599 | The guard of a move is exact: the agreement survives a move if and only if the item is not above the target |
| `AddrCache.AddressCache.FillUid` | src/addrcache.c:287-337 | An item that has a uid keeps it, another gets the number after the counter |
| `AddrCache.AddressCache.AllocateUid` | src/addrcache.c:287-337 | The same on a cache in agreement: a new uid is in nobody's use and may be hashed |
| `AddrCache.AddressCache.FolderAdd` | src/addrcache.c:396-445 | The three ways to add an item to a folder, each as one change of the whole state; when the uid was taken nothing happens, and only the folder version reports success |
| `AddrCache.AddressCache.PersonAddEmail` | src/addrcache.c:469-482 | The email is linked and hashed, or nothing happens if its uid was taken, be it by a person, a folder or another email |
| `AddrCache.AddressCache.GroupAddEmail` | src/addrcache.c:506-514 | The scan for a second reference and the append, as one change of the whole state |
| `AddrCache.AddressCache.AddContact` | src/addrcache.c:1013-1040 | A new person with one email under two fresh uids; the email ends owned but not hashed, and the cache stays in agreement |
| `AddrCache.ContactInv` | src/addrcache.c:1013-1040 | The email of a new contact is in no hash entry, and this breaks nothing |
| `AddrCache.ContactIs` | src/addrcache.c:1013-1040 | What a new contact is: a person of that name and no other, at the end of its folder, with one email of that address and those remarks; everything else is as before |
| `AddrCache.AddressCache.AddNewFolder` | src/addrcache.c:1050-1070 | A new empty folder under a fresh uid |
| `AddrCache.AddressCache.GetObject` | src/addrcache.c:605-621 | A lookup finds the object of that uid, never the root, or there is none |
| `AddrCache.AddressCache.FolderMove` | src/addrcache.c:540-598 | Out of the old list, to the end of the new one, new parent; no check for cycles, not even for a folder moved into itself |
| `AddrCache.AddressCache.AllGroupsRemoveEmail` | src/addrcache.c:698-710 | The visitor over the whole hash table reaches every group |
| `AddrCache.AddressCache.RemoveGroup` | src/addrcache.c:645-666 | The group is pruned: gone from hash and list, everything else as before |
| `AddrCache.AddressCache.DropEmails` | src/addrcache.c:717-758 | The loop over a person's emails takes them out of every group and their uids out of the hash |
| `AddrCache.AddressCache.RemovePerson` | src/addrcache.c:717-758 | The person is pruned with its emails; groups lose exactly those emails |
| `AddrCache.AddressCache.TakeEmail` | src/addrcache.c:674-787 | The email leaves its person, all groups and the hash, and only if the person had it |
| `AddrCache.AddressCache.RemoveFolder` | src/addrcache.c:895-942 | The three loops that hand the children to the parent, and the removal, amount to the contraction |
| `AddrCache.AddressCache.RemoveFolderDelete` | src/addrcache.c:949-1000 | The three while loops end, and all they do is to prune the folder: from the hash go exactly the folders, groups, persons and emails below it, surviving groups lose exactly the deleted emails, nothing else changes |
| `AddrCache.AddressCache.GetGroupForPerson` | src/addrcache.c:792-828 | The list holds each group that refers to an email of the person, once, and no other |
| `AddrCache.AddressCache.Clear` | src/addrcache.c:191-213 | Everything is gone but a new root; the counter goes on |
| `ClipMove.IsSubfolderOf` | src/addrclip.c:403-422 | On every cache in agreement the walk ends and decides the reflexive ancestor relation |
| `ClipMove.MoveItems` | src/addrclip.c:552-603 | Pasting what was cut in the same book: the loop makes the guarded moves in clipboard order and keeps the agreement, for every clipboard; groups and folders that moved are reported |
| `ClipMove.MoveAllPasted` | src/addrclip.c:552-603 | What pasting leaves, without its loop: each item that may move has the target as its parent and stands at the end of the target's list in clipboard order, all other lists lose just these; the hash, the objects and what persons and groups hold are unchanged |
| `ClipCopy.FindCopied` | src/addrclip.c:293-311 | The copy of an original is that of its first entry |
| `ClipCopy.AddPersonCopy` | src/addrclip.c:222-284 | A new person that shows the same names, emails and attributes under fresh uids; the copy list grows by its emails and their copies; of the old items only the folder has changed |
| `ClipCopy.AddGroupCopy` | src/addrclip.c:321-345 | A new group that holds, in order, exactly the copies of those members that were copied with it |
| `ClipTree.ShowsExists` | src/addrclip.c:356-401 | In a cache in agreement the part below any folder is a finite tree: a recursive copy has an end |
| `ClipFolder.CopyFolder` | src/addrclip.c:356-401 | Under the guard that the target is not inside the source the copy ends and shows the same tree of names, emails, attributes and shape at new places under fresh uids; each copied group holds, in order, the copies of its members from the same folder; the source's subtree is untouched |
| `ClipPaste.PasteItems` | src/addrclip.c:432-542 | Pasting a whole clipboard by copying: the target's lists end with items that show, in clipboard order, the selected persons, folders, books and groups, the groups re-linked to the persons pasted with them; everything else old is unchanged |
| `ClipDelete.CountBelow` | src/addrclip.c:356-401 | A folder's tree has as many persons as lie below it |
| `ClipDelete.DeleteItems` | src/addrclip.c:658-720 | After a move nothing is deleted; otherwise exactly the selected items and what lies below them go, also when a selected item is inside another one |
| `ClipDelete.DownOneMore` | src/addrclip.c:658-720 | Pruning one more selected item adds exactly its subtree to what is gone |
| `ClipCut.DeletingCount` | src/addrclip.c:658-720 | The deletion takes away as many persons as lay at or below the selected items |
| `ClipCut.SelectionSplit` | src/addrclip.c:432-542 | If no selected item is inside another, each one's persons are counted once |
| `ClipCut.CutAcross` | src/addrclip.c:658-760 | Cutting from one book into another: the target gains matching copies, the source loses exactly the selected subtrees, both stay in agreement, and the two together have as many persons as before if no selected item is inside another |
| `ClipCut.PasteCut` | src/addrclip.c:729-760 | A cut inside one book moves and sets the flag that nothing is to be deleted; across books it copies; either way the groups and folders that have moved or are new are returned |
| `ClipCut.NestedSelectionDoubles` | src/addrclip.c:432-542 | The condition matters: a person selected together with a folder above it is copied twice and deleted once |
| `AddrMerge.GatherEmails` | src/addrmerge.c:88-100 | The selected emails leave their persons, all groups and the hash and end in the target's list and in the hash again |
| `AddrMerge.TakeOver` | src/addrmerge.c:110-124 | The two inner loops hand the emails and attributes of one person to the target |
| `AddrMerge.MergePersons` | src/addrmerge.c:102-143 | Each other person is emptied into the target and removed, whichever folder is on display |
| `AddrMerge.UnlinkTwice` | src/addrmerge.c:126-131 | Taking the person out of the displayed folder's list beforehand makes no difference |
| `AddrMerge.DoMerge` | src/addrmerge.c:69-143 | The whole dialog action, without the dialog, takes the cache to the merged state and keeps the agreement |
| `AddrMerge.MergeKeepsEmails` | src/addrmerge.c:88-143 | A merge loses no email: the target ends with its own, the selected and the merged persons' emails, in that order and each once; the owned emails are the same as before, and each has the right parent |
| `AddrMerge.MergeKeepsRest` | src/addrmerge.c:88-143 | The hash loses exactly the merged persons; every group keeps, in order, its members but the selected emails; other persons and folders lose only what was selected or merged |
| `AddrMerge.MergeTakesNames` | src/addrmerge.c:79-124 | The target ends with the first, last, nick and common name of the person chosen for them, under its own uid and in its own folder, with its own attributes and then those of the merged persons |
| `AddrMerge.MergedInTurn` | src/addrmerge.c:102-124 | What in turn means: the emails and attributes of the merged persons, those of the target itself left out, come person by person in the order of the selection |
| `AddrMerge.MergeInv` | src/addrmerge.c:88-143 | The merged cache is in full agreement |
| `AddrRelink.FirstByAddressMeans` | src/addrbook.c:1417-1433 | The address table leads to the first new email with that lower-cased address, or to none if there is none |
| `AddrRelink.FirstByAliasMeans` | src/addrbook.c:1417-1433 | The alias table leads to the first new email with that name, or to none |
| `AddrRelink.BuildTables` | src/addrbook.c:1417-1433 | The loop that builds the two tables never lets a later email replace an earlier one |
| `AddrRelink.RewriteNodes` | src/addrbook.c:1443-1475 | The nodes of one group rewritten in place by address, then alias, then the only address; what has no successor is marked |
| `AddrRelink.RemoveMarked` | src/addrbook.c:1477-1485 | What is left of the local list, and whether the node that the group still points to, its first, has been freed |
| `AddrRelink.SlotsAreWritten` | src/addrbook.c:1443-1485 | Rewriting and then removing what is marked leaves the documented slots |
| `AddrRelink.RelinkGroups` | src/addrbook.c:1410-1490 | Every group of the person is relinked, and only those; all heads are kept if and only if no group's first member is dropped |
| `AddrRelink.RemoveOld` | src/addrbook.c:1501-1512 | The person's old emails leave its list and the hash |
| `AddrRelink.AddNew` | src/addrbook.c:1513-1524 | The new emails are held by the person in order and hashed, under a fresh uid if they came without |
| `AddrRelink.UpdateAddressList` | src/addrbook.c:1400-1542 | It meets its documentation if and only if no group's first member has no successor: then every slot of an old email holds its successor in place or is gone, other slots keep their order, no group and no hash entry reaches an old email, and the person holds the new list; the result is in agreement if and only if no two members of a group go to the same new email |
| `AddrRelink.SlotsApart` | src/addrbook.c:1443-1485 | A relinked group is free of repetitions exactly if no two of its members have the same successor |
| `AddrRelink.ReplacedInv` | src/addrbook.c:1400-1542 | The replaced cache is in agreement exactly if that holds of every group |
| `AddrRelink.FirstMemberDropped` | src/addrbook.c:1439-1485 | A book in which the first member of a group is dropped, so that the group is left with a freed list head |
| `AddrRelink.MembersRunTogether` | src/addrbook.c:1457-1468 | A book in which two members become the same new email, so that the group refers to it twice |
| `XmlFiles.NextTag` | src/common/xml.c:212-346 | Every tag that is read uses up some of the input, so level-driven readers end on every input |
| `XmlFiles.StripMeans` | src/common/xml.c:387-401 | Of a text the blanks, tabs, line ends and form feeds at either end are taken off, all of them and nothing else |
| `XmlFiles.StripKeeps` | src/common/xml.c:387-401 | A text is kept exactly if it has none of them at either end |
| `XmlFiles.XmlFile.ParseNextTag` | src/common/xml.c:212-346 | Opening tags are pushed, closing tags are compared and popped, and an element that closes itself is popped by a call that reads nothing |
| `IndexFragment.TagWriter.WriteFragment` | src/addrindex.c:1028-1067 | The recursive writer puts out the tags of the tree, and an element without children as one that closes itself |
| `IndexFragment.ReadFragment` | src/addrindex.c:966-1020 | The level-driven reader ends on every input, whatever its tags |
| `IndexFragment.FragmentRoundTrip` | src/addrindex.c:966-1067 | Every fragment tree is read back as written, names, attributes and children in order, and nothing behind it is consumed |
| `IndexFragment.TagsInjective` | src/addrindex.c:1028-1067 | Different fragments are written differently, even when more follows |
| `BookParse.ReadWritten` | src/addrbook.c:364-783 | First stage of the round trip: the tags of any document parse without an error into its objects in its order, to the end of the file |
| `BookFile.AddressBookFile.ParseAddress` | src/addrbook.c:364-397 | One address tag: a new email under its uid, given to the person, if there is one and the uid is free |
| `BookFile.AddressBookFile.ParseAttribute` | src/addrbook.c:429-461 | One attribute tag, with the element's text stripped of white space |
| `BookFile.AddressBookFile.ParseMember` | src/addrbook.c:541-571 | One member tag: the email of that uid joins the group if it is found |
| `BookFile.AddressBookFile.ParseFolderItem` | src/addrbook.c:643-664 | One item tag: its uid is noted for the folder |
| `BookFile.AddressBookFile.ParseList` | src/addrbook.c:405-689 | The four list parsers: a loop that calls itself for each element and comes back when the level has dropped, or jumps out on a broken tag |
| `BookFile.AddressBookFile.ParsePerson` | src/addrbook.c:492-533 | A person is made of its tag and hashed after its addresses |
| `BookFile.AddressBookFile.ParseGroup` | src/addrbook.c:603-635 | A group is hashed before its members are read |
| `BookFile.AddressBookFile.ParseFolder` | src/addrbook.c:696-734 | A folder is hashed, queued for resolution, and its uids noted |
| `BookParse.WithoutList` | src/addrbook.c:492-734 | A person without an address list is not hashed; a group or folder without its list is thrown away |
| `BookFile.AddressBookFile.ReadTree` | src/addrbook.c:743-783 | The whole reader: success, a file of another format, or the jump |
| `BookResolve.ReadTreeOk` | src/addrbook.c:743-783 | However the file looks, what has been loaded is something the resolver can deal with |
| `BookResolve.KidsNoDup` | src/addrbook.c:826-870 | A folder's list comes out without repetitions exactly if no two of its uids lead to the same object |
| `BookResolve.NamerIs` | src/addrbook.c:823-870 | With uids named once the parent of an object is the folder that lists it, wherever the folders stand in the file |
| `BookResolve.ResolvedHolds` | src/addrbook.c:791-907 | An object is in a folder's list exactly if the folder names it, and in the root's exactly if no folder does; uids that lead nowhere vanish |
| `BookResolve.ResolvedInv` | src/addrbook.c:791-907 | The uid lists of a sound book become a forest in agreement with the hash if and only if they name no object twice and no folder within itself |
| `BookSound.FileInv` | src/addrbook.c:364-907 | The same said of a file alone: one in which no uid is used twice gives a book in agreement if and only if no uid is empty or one that the counter is still to give out, the folders name no object twice, and no folder lies within itself |
| `BookResolve.TraversalDoesNotMatter` | src/addrbook.c:791-907 | With the hash table traversed in another order every object gets the same parent, every folder the same lists in order and the root the same objects |
| `BookUnique.UniqueIsLoaded` | src/addrbook.c:364-734 | A file in which no uid is used twice is loaded whole: every person, group and folder of it is hashed under its uid with what its record says, every address is held by its person |
| `BookRecords.MembersBack` | src/addrbook.c:541-571 | The members of a group come back as they stand in the file if and only if each is an address of the person it is said to be of and none is listed twice |
| `BookRecords.ItemsBack` | src/addrbook.c:823-870 | The items of a folder come back as they stand in the file if and only if each leads to an object of the kind it is said to be and persons come before groups and groups before folders |
| `BookOrder.OrderDoesNotMatter` | src/addrbook.c:364-907 | Two files with the same persons, groups and folders in different orders, in which no uid is used twice and no object named by two folders, are read as the same book, whatever the orders and the traversals: every object under the parent of the same uid, every folder with the same lists in order |
| `BookFile.AddressBookFile.PlaceItems` | src/addrbook.c:823-870 | The inner loop over one folder's uids |
| `BookFile.AddressBookFile.GroundFolders` | src/addrbook.c:871-891 | Folders with a parent leave the root's list, the others get the root as their parent |
| `BookFile.AddressBookFile.VisitAll` | src/addrbook.c:791-808 | The visitor puts each person and group without a parent under the root |
| `BookFile.AddressBookFile.ResolveFolderItems` | src/addrbook.c:815-907 | The three loops and the visitor compute the resolved book |
| `BookLink.AllVisited` | src/addrbook.c:791-907 | One uid at a time and all at once: the loops are the resolution |
| `BookWrite.WritePerson` | src/addrbook.c:1029-1110 | The tags of a person's record: its attributes, addresses and user attributes |
| `BookWrite.WriteGroup` | src/addrbook.c:1119-1169 | The tags of a group's record: each member by its person's uid and its own |
| `BookWrite.WriteFolder` | src/addrbook.c:1178-1256 | The tags of a folder's record: persons, groups and folders by uid |
| `BookWrite.WriteBook` | src/addrbook.c:1264-1335 | The three passes over the hash table write the document of the book, in the order of a traversal |
| `BookFormat.PersonFormat` | src/addrbook.c:1029-1110 | The record of a person tag by tag: which tag stands where, and which field of the person or its emails each of its attributes has |
| `BookFormat.GroupFormat` | src/addrbook.c:1119-1169 | The record of a group tag by tag: each member has the uid of its person and its own |
| `BookFormat.FolderFormat` | src/addrbook.c:1178-1256 | The record of a folder tag by tag: what lies in each of its lists is written under the type person, group or folder |
| `BookSame.SaveLoad` | src/addrbook.c:364-1256 | Save and load: any book in agreement, written in whatever order its hash table is traversed, is read back without an error as the same book and in agreement again: same persons, emails in order, attributes (text stripped), groups with members in order, folders with lists in order, all in the folders of the same uids, and the root's lists up to order |
| `BookKept.SaveLoadKept` | src/addrbook.c:364-1256 | The same without a word of stripping, field by field: if the name and all attribute texts have no white space at either end, the book comes back under its name with every name, address, alias, remark and attribute of every person, group and folder as it was, members and lists in order, each object in the folder of the same uid |
| `BookFile.AddressBookFile.ReadData` | src/addrbook.c:914-951 | Clear, read, resolve; the flags afterwards, in each outcome |
| `BookFile.AddressBookFile.SaveData` | src/addrbook.c:1353-1367 | Write, and clear the flag if the write succeeded; the old file is replaced, as a whole and in the order of a traversal of the hash table, or stays |
| `BookDisk.SaveAllBooks` | src/addrindex.c:1835-1862 | The pass writes exactly the books that have been read and changed, each in the order of a traversal, and leaves every other as it is; its result is the last error of those it wrote |
| `BookDisk.LastErrorMeans` | src/addrindex.c:1849-1851 | The result of the pass is the last error, or success if there was none |
| `BookDisk.CleanEdit` | src/addrcache.c:396-598 | An operation that leaves the dirty flag down has not changed the book |
| `BookDisk.DiskAgreement` | src/addrbook.c:914-1367 | Over every run of edits, arbitrary changes that raise the dirty flag, renames, reads, and saves and save-all passes that write books in agreement: a book that counts as read and unchanged is the book that a reload of its file gives |
| `BookDisk.NewBookAgreement` | src/addrbook.c:914-1367 | and so for every such run from a new book, whatever its file is |
| `BookDisk.SavedOutOfAgreement` | src/addrbook.c:1353-1367 | Why books in agreement: a book with a person that is hashed but lies nowhere, as a read that breaks off leaves it, is after its saving not what a reload of its file gives, whatever the file |
| `BookNest.FailedRead` | src/addrbook.c:743-951 | A read fails midway, and the book then counts as not read, exactly if the file is a document whose first tag is missing or broken or whose address book is not well nested up to its end, whatever its tags are called; the condition is on the tags alone, without the parser |
| `BookNest.WrittenNests` | src/addrbook.c:1264-1335 | The tags of any document are well nested: what the writer puts out is never read halfway |
| `BookDisk.UnreadNeverWritten` | src/addrindex.c:1835-1862 | A book whose read failed midway is written by no save-all pass, however it is changed in between and in whatever state the failed read has left it, until it is read or saved by name |
| `BookDisk.PassAfterFailedRead` | src/addrindex.c:1835-1862 | Such runs exist for every failed read: any changes and then the pass, and the file is what it was |
| `BookDisk.ForeignFileCountsAsRead` | src/addrbook.c:914-951 | The first family for which the strict agreement fails: any file without a document type reads as an empty book that counts as read and unchanged, and is nothing the writer produces |
| `BookNormal.NormalComesBack` | src/addrbook.c:364-1335 | From the book read from a normal document (no uid used twice, texts stripped, members and items that lead where they say) the writer makes that document again, in some traversal order |
| `BookTidy.WrittenIsNormal` | src/addrbook.c:364-1335 | When the book that was read from a document writes that very document again, in whatever traversal order, the document is normal |
| `BookExact.ReadExact` | src/addrbook.c:914-951 | The exact condition of the strict agreement, for every file that is read: the book would write that very file, tag for tag, if and only if the file holds a normal document |
| `BookExact.SavedIsWell` | src/addrbook.c:1264-1367 | For the file that a book in agreement writes the condition is that its name and all attribute texts are stripped, in the book or, equivalently, in the file |
| `BookExact.ExactStep` | src/addrbook.c:914-1367 | Of all that can happen to a book, in agreement or not, only one thing ends the strict agreement, and it always does: a successful read of a file that holds no normal document |
| `BookExact.ExactAgreement` | src/addrindex.c:1835-1862 | Over every run without such a read a book that counts as read and unchanged would write its very file |
| `BookExact.FineAgreement` | src/addrindex.c:1835-1862 | From a book in strict agreement whose texts are stripped and whose file, if any, holds a normal document the strict agreement holds over every run that brings only stripped texts and saves books in agreement: the files written on the way are normal |
| `BookExact.NewBookExact` | src/addrindex.c:1835-1862 | and so for every such run from a new book without a file |
| `ActionScan.ActionGetType` | src/action.c:200-283 | The pointer walk computes the type of every string, character by character |
| `ActionScan.ParseActionCmd` | src/action.c:285-370 | The pointer walk computes the command of every string and input, or nothing if an input cannot be had |
| `ActionScan.ScannersAgree` | src/action.c:200-370 | For every action string in order without `%a` the command depends only on inputs whose flag the other scanner has set |
| `ActionScan.FlagsExact` | src/action.c:200-283 | and no flag for an input is set without a directive that asks for it |
| `ActionScan.DoublingExact` | src/action.c:200-370 | Doubling every `%` of a command gives an action that expands to that very command if and only if it is not empty and has no operator in front or at the end |
| `ActionScan.DoubledCut` | src/action.c:285-370 | A doubled command that ends in an operator comes back without it |
| `ActionMeaning.DirectiveMeans` | src/action.c:302-358 | What each directive puts in, between the plain text before it and whatever becomes of the text behind: `%f` the message's file, `%F` the files of all messages, `%p` the part's, `%s` the selection, `%u` and `%h` the user's texts, `%%` a `%`; another letter stays with its `%`; and without a file there is no command |
| `ActionMeaning.FilesJoined` | src/action.c:312-326 | The files of all messages are joined by one blank each, and one that cannot be had spoils all |
| `ActionMeaning.PlainComes` | src/action.c:296-362 | A string without directives comes out as it is, less an operator at its end |
| `ActionMeaning.LeadPasses` | src/action.c:296-297 | An operator in front is no part of the command |
| `ActionMeaning.TypeMeans` | src/action.c:200-283 | The type of an action in order, bit by bit: piping and user input by the first character, pipe out, insert and async by the last, each other bit by the directives that ask for it |
| `ActionMeaning.ErrorMeans` | src/action.c:225-283 | An action is in error exactly if it is empty but for an operator in front, or has a directive that there is not |
| `ActionMeaning.FilteringMeans` | src/action.c:230-240 | `%a` ends the scan, and for a message takes the place of every bit |
| `ActionChildren.InputsExclude` | src/action.c:200-283 | No action takes its input both from the message and from the user |
| `ActionChildren.StepGood` | src/action.c:1086-1638 | Whatever enabled event happens, the record is there to receive it, and the invariant of the record, its sources and its descriptors holds again |
| `ActionChildren.Lifecycle` | src/action.c:850-1638 | Over every interleaving of exits, output, ends of output, input and dialog events: `nb` is the number of children that run, a descriptor is closed once when it is held no more and never twice; the record is freed, and then exactly once, unless the dialog is shown and children run or there is output to read, in which case it is freed by closing the dialog after the last child has gone; it is freed only when `nb` is 0, and no event can touch it afterwards |
| `ActionOutput.OutputIsSeen` | src/action.c:1086-1115 | Over every run there is output to look at exactly if some output has been read that does not go to the message; from then on nothing but closing the dialog frees the record |
| `ActionOutput.LaunchHolds` | src/action.c:885-1064 | What has been launched: a running child for each command that could be started, each with both outputs held and its input just if the user is to write or nothing was piped; what is not held is closed |
| `ActionOutput.StartedMeans` | src/action.c:885-920 | A child is started for each command that could be |
| `ActionOutput.KindMeans` | src/action.c:200-283 | Whether an action pipes, takes user input or is not waited for, by its first and last character |
| `ActionChildren.PressTwice` | src/action.c:1117-1125 | Pressing Send again keeps the invariant if and only if no press is pending; otherwise the first press's source is lost |
| `ActionChildren.LostForever` | src/action.c:1117-1177 | A lost source stays enabled whatever follows |
| `ActionChildren.PressedTwiceAndEnded` | src/action.c:1117-1202 | One child, two presses and its end: the record is freed and an event that touches it is still enabled |
| `ActionChildren.ExecuteActions` | src/action.c:850-941 | Forking, counting and watching take a new record to the launched state |
| `ActionChildren.Children.ForkChild` | src/action.c:943-1064 | One child: pipes that are not needed are closed at once, the outputs are watched |
| `ActionChildren.Children.OnExit` | src/action.c:1441-1500 | Exit of a child: its watches go, its pipes are closed, `nb` drops, then `wait_for_children` |
| `ActionChildren.Children.OnOutput` | src/action.c:1554-1638 | Data, end or error on an output; the end closes the pipe once and clears its field |
| `ActionChildren.Children.WaitForChildren` | src/action.c:1086-1115 | The record is freed or the dialog dealt with once no child runs |
| `ActionChildren.Children.HideIoDialog` | src/action.c:1133-1145 | Closing the dialog frees the record only when no child runs |
| `ActionChildren.Children.OnSend` | src/action.c:1117-1125 | A press watches the input of the first child anew, whatever was pending |
| `ActionChildren.Children.OnInput` | src/action.c:1502-1552 | The text is sent: the source goes, the pipe is closed and its field cleared |
| `HarvestScan.FindAtSign` | src/addrharvest.c:416-442 | The first `@`, or the second if nothing ends the address in between; the scan stops at the terminator |
| `HarvestScan.FindAddress` | src/addrharvest.c:451-474 | The slice around an `@`: from the first character that is no comma, semicolon, blank or line end, to the next comma or semicolon; both loops end within the string although neither looks for the terminator |
| `HarvestScan.AtSignMeans` | src/addrharvest.c:416-442 | The `@` found is the first one, or the next if neither `>` nor `,` nor a new line stands between |
| `HarvestScan.SlicesCover` | src/addrharvest.c:549-598 | The slices of a header line are disjoint, left to right, inside the line, each holds an `@`, and together they hold every `@` |
| `HarvestScan.CopySlice` | src/addrharvest.c:554-562 | The copy holds the slice, cut to the nominal size, and its three terminators stay inside the buffer |
| `HarvestScan.CopiedMeans` | src/addrharvest.c:554-562 | A slice of up to 1023 characters is copied whole, and of a longer one the first 1023 |
| `AddrHarvest.PutsAreSlices` | src/addrharvest.c:539-599 | The addresses that are inserted are those of the slices, in order: each slice gives the one extracted from its copy, or none, and nothing else is inserted |
| `AddrHarvest.InsertWorks` | src/addrharvest.c:317-387 | Every insertion keeps the chunks, the table of known addresses and the cache in order |
| `AddrHarvest.Harvested` | src/addrharvest.c:317-387 | After any sequence of inserts each header with count c has ceil(c/s) new folders of its own under the root, which bear the header and their number from 1, all full but for the last; they hold the harvested persons and no others, each in exactly one of them; the counts add up to the number of different lower-cased addresses; each person has the first of the longest names seen with its address |
| `HarvestHomes.HarvestedInTurn` | src/addrharvest.c:317-387 | Each new address of a header goes to the next place in the folders of that header, in the order in which they were found, and its person holds one email, of that address as it was first found, with neither alias nor remarks |
| `AddrHarvest.LongestMeans` | src/addrharvest.c:344-354 | What that name is: seen with the address, no shorter than any other, and longer than every earlier one |
| `AddrHarvest.FoldersAreCeiling` | src/addrharvest.c:330-368 | Full folders and a last one that is not full make the count divided by the size, rounded up |
| `AddrHarvest.AddressHarvester.InsertCache` | src/addrharvest.c:317-387 | The source's branches, known address or new, folder full or not, as one change of harvester and cache |
| `AddrHarvest.AddressHarvester.ParseAddress` | src/addrharvest.c:539-599 | The loop over a header line ends on every string and inserts just the addresses of its slices, in order |

## Left out

- Windows, lists and dialogs (src/addressbook.c, src/addressadd.c, the dialogs of src/addrmerge.c, src/action.c and src/addrgather.c): only the events that reach the data are modelled.
- LDAP, JPilot, vCard, D-Bus and query branches: foreign calls.
- src/account.c, src/addr_compl.c and the `addrbook_chkparse_*` functions: they would only add easier members.
- Overflow: `nextID`, `nb` and the counts of the harvester are machine integers in the source and have no bound here; string lengths are counted in the elements of the string, which stand for the source's bytes.
- Null and empty strings are one value: a missing uid, name or text reads as the empty string, and `""` is no uid that is ever hashed.
- Fields that are not saved (`status`, `externalID`, `isOpened`, `isHidden`, `folderType`) and picture files are no part of the items; neither are folder remarks of a copy, which `addritem_copy_item_folder` does not copy.
- Lower-casing (`g_utf8_strdown`) is a parameter `lower`, any function on strings; extracting an address and cleaning a name (src/addrharvest.c:482-530, 564-585) are a parameter `extract`; `addritem_parse_first_last` is not part of this model.
- Text and attribute values stand for themselves: escaping, code sets and the white space between tags are not part of this model; reading, writing and renaming a file succeed or fail as a parameter says, and a write replaces the file as a whole.
- Memory: list nodes are elements of sequences; `folder->listItems` and the local removal lists are freed by the source at the end of the resolution, so rewriting their nodes leaves no trace here.
- CacheRuns.RunAgreement: a caller may bring an item with a uid of its own only if it is taken already or the counter will not produce it, since the counter starts at the current time and freshness against older uids is an assumption of the source (src/addrcache.c:69-74).
- ClipMove.MoveItems: all items of the clipboard that can still be found are in one cache, as the source assumes (src/addrclip.c:606-607); the same holds of PasteItems, DeleteItems, CutAcross and PasteCut.
- ClipPaste.PasteItems: the uids in the clipboard are none that the source's counter is still to give out.
- ClipCut.CutAcross: the count of persons leaves out clipboards with a whole address book in them, which deletion passes over.
- AddrMerge.DoMerge: the selected emails and persons are distinct, as src/addrselect.c:273-274 sees to; the pictures of merged persons are not modelled.
- AddrRelink.UpdateAddressList: the new emails are held by nobody and their uids are the person's own old ones or in nobody's use; after a group's list head has been freed nothing is said of the outcome, since the source then reads freed memory.
- XmlFiles.NextTag: a closing tag where no tag is open counts as an error, where the source would follow a null pointer; comments have been skipped.
- BookFile.AddressBookFile.ParseMember: a group tag without attributes makes no group, and the source then frees each of its members that is found (src/addrbook.c:565-568) although a person still holds it; here such members are passed over.
- BookResolve.ResolvedInv: it is about books without lost objects, such as unique uids give; in a file in which two objects share a uid one of them ends in no list.
- BookSame.SaveLoad: attribute text loses the white space around it, which the reader strips (src/common/xml.c:387-421); the counter is not below the one that the book was written with, as the clock sees to.
- BookDisk.DiskAgreement: what is on the disk is compared by reading it, and a book out of agreement may be changed in any way that raises the dirty flag but is not saved here, since reading its file need not give it back (BookDisk.SavedOutOfAgreement); the strict comparison with the file, which BookExact.ExactAgreement makes, covers saves of every book.
- ActionChildren.Lifecycle: the button is pressed again only when no press is pending, and PressTwice says what happens otherwise; what children write, kills by the user, and events during an error dialog while children are still being forked are not modelled, and descriptors are named by child and end, so their reuse after a close does not appear.
- ActionScan.ParseActionCmd: the files of messages and parts are given as texts or as missing; prompts for the user's texts likewise.
- AddrHarvest.Harvested: reading folders and files and matching header names (src/addrharvest.c:607-897) are not part of this model; what is found is a sequence of names and addresses.
