# scorpi-hv: proofs about its data formats and device models

This project models the parts of scorpi-hv that build and read structured bytes, and proves what
they promise: name/value lists and their packed form (libnv), flattened device trees and overlays
(libfdt), the MD5 digest of a stream, the variable store's flash chip, and the ACPI table linker.

The models follow the code. Objects that the code links and updates in place are classes over a
ghost snapshot of the whole object graph; blobs are arrays edited in place; loops are loops. Each is
proved against a small meaning: a tree, a token sequence, a chip with one mode, a table linked.

- `Nv*.dfy`: the tree and its packed form, the object graph and its size bookkeeping, the stackless
  walks that pack and unpack it, copying, adding, appending and removing.
- `Fdt*.dfy`: tokens, trees and places in them; reading, editing and writing blobs in place; paths;
  overlays, their targets and edits; phandles and local references, said about every path of the tree.
- `Md5*.dfy`, `Flash.dfy`: the digest and the flash chip.
- `Acpi*.dfy`, `Basl*.dfy`: tables, what linking them means, the loader script, and the linker.

The main results: `NvApi.Transfer` on top of `NvPack.Pack` and `NvUnpack.Unpack`; `NvView.SizeLaw`;
`NvAbove.SwappedAbove`; `FdtOps.SetNodeProp` and its neighbours; `FdtFragments.MergeOverlay` on top
of `FdtOverlay.ApplyNode` and `FdtLayer.MergeIsEdits`; `FdtRelocate.Relocate` on top of
`FdtListing.NodeSpelled` and `FdtOutcome.Outcome`; `FdtGetPath.PathRoundTrip`; `FdtWriteTree.WriteTree`; `Md5.DigestOf`;
`Flash.RunCoherent`; `BaslMachine.BuildMachine` on top of `Basl.Linker.Finish`, with
`BaslRoot.LoaderAgrees`, `BaslRoot.SumsInMemory` and `BaslRoot.RootEntries`.

## Model

| member | source | states |
|---|---|---|
| `NvRoundTrip.RoundTrip` | libnv/libnv.c:1053-1180 | decoding the packed form of any well-formed tree, in either byte order and with the tree's own flags, gives that tree back: nested lists, arrays of lists and every scalar type |
| `NvRoundTrip.ListHdrIs` | libnv/libnv.c:983-1050 | whatever its fields, a list header is accepted exactly with the magic byte, known flags, no descriptors and the size of what follows, read in the byte order its flags say |
| `NvRoundTrip.PairHdrIs` | libnv/bsd_nvpair.c:604-667 | whatever its fields, a pair header is accepted exactly with a known type, a name that ends where it says, and data that is there |
| `NvRoundTrip.ScalarWrites` | libnv/bsd_nvpair.c:669-1042 | scalar data that is accepted is byte for byte the data of the scalar it is read as; arrays have the number of items announced |
| `NvTree.TreeChunksSize` | libnv/libnv.c:231-274 | the packed form of a tree has exactly the size that the size bookkeeping computes for it |
| `NvPack.Pack` | libnv/libnv.c:810-963 | the stackless walk over linked objects, up and along array links, writes byte for byte the recursive packed form and fills exactly the cached size; it gives nothing exactly when the list carries an error |
| `NvPack.Walk` | libnv/libnv.c:847-960 | every turn of the walk keeps the bytes written so far and the bytes still owed together equal to the recursive form |
| `NvUnpack.Unpack` | libnv/libnv.c:1053-1180 | on arbitrary bytes: the result is a consistent object graph standing for the tree the format describes, its root free and without an error, or nothing, exactly as the format function says |
| `NvUnpack.Turn` | libnv/libnv.c:1074-1170 | one turn of the unpacking loop does to the objects what one step of the format does to the open tree, for every marker |
| `NvUnpack.ReadLists` | libnv/bsd_nvpair.c:1044-1092 | the elements of a list array are chained, marked and owned before any of them is filled |
| `NvUnpack.ClimbOut` | libnv/libnv.c:1128-1150 | leaving a finished list reaches the list that holds it, through a pair or an array |
| `NvView.SizeLaw` | libnv/libnv.c:231-274 | in every consistent store the cached size of every list, at any depth, is the packed size of the tree it stands for |
| `NvView.TreeUnique` | libnv/libnv.c:87-95 | a list stands for at most one tree |
| `NvView.TreeExists` | libnv/libnv.c:87-95 | in a consistent store every list stands for some tree: the links have no cycles |
| `NvOps.UpdateSize` | libnv/libnv.c:231-274 | changing one list's size by a pair's size updates every list above it by the same amount and nothing else |
| `NvOps.Find` | libnv/libnv.c:355-383 | finds the first pair of the type and name, or says that there is none; a pair found has that very name, or the same letters in either case where the flags say so, and when none is found no pair has |
| `NvTree.SameNameIs` | libnv/libnv.c:367-376 | two names are the same exactly when equal; with ignore-case, when they differ in the case of ASCII letters only |
| `NvTree.FreshIs` | libnv/libnv.c:1589-1612 | a name is free exactly when no pair has the same; with no-unique always |
| `NvOps.MovePair` | libnv/libnv.c:1589-1612 | hangs a loose pair at the end of a list, or records that the name is taken; sizes above follow |
| `NvEdit.NewList` | libnv/libnv.c:113-132 | a new list is an empty root of the size of a header |
| `NvEdit.NewPair` | libnv/bsd_nvpair.c:1524-1547 | a pair over root lists takes them over: parents and array links are set, all else is kept |
| `NvEdit.RemovePair` | libnv/libnv.c:1950-1959 | taking a pair out restores the sizes above it and makes its own lists roots again |
| `NvLists.Remove` | libnv/libnv.c:1950-1959 | the list then stands for its tree without that pair |
| `NvClone.Clone` | libnv/libnv.c:413-439 | a deep copy in fresh objects that stands for the same tree; refused exactly when some list below carries an error |
| `NvClone.ClonePair` | libnv/bsd_nvpair.c:228-291 | one pair is copied with everything below it, or nothing is |
| `NvApi.CopySize` | libnv/libnv.c:413-439 | a copy has the cached size and flags of the original |
| `NvApi.Add` | libnv/libnv.c:1634-1654 | handing over a scalar, a list or an array of lists: ignored after an earlier error, refused for lists in use or with an error and for a long or taken name, otherwise the tree has exactly one pair more; no list outside the one added to has its own pairs changed |
| `NvApi.AddedWhen` | libnv/libnv.c:1634-1654 | a pair is added exactly when there was no error, nothing is refused, the name has fewer than 2048 bytes and is not taken |
| `NvApi.RefusedWhen` | libnv/bsd_nvpair.c:1524-1547 | nothing is refused exactly when every list handed over is free and without an error, and an array has one |
| `NvApi.Append` | libnv/libnv.c:1556-1577 | appending to an array extends the first array of that type and name, or makes it; the error is set exactly when neither is possible, and only this list has its pairs changed |
| `NvAbove.Elsewhere` | libnv/libnv.c:231-274 | when one list has its pairs changed, every list that does not hold it stands for the same tree as before |
| `NvAbove.SwappedAbove` | libnv/libnv.c:231-274 | every list above it, at any height, stands for its old tree with the old subtree replaced by the new one in that one place |
| `NvAppend.AppendItem` | libnv/bsd_nvpair.c:127-147 | one more element in a scalar array; the cached sizes above follow |
| `NvAppend.ElementsGrow` | libnv/bsd_nvpair.c:127-147 | the elements are those before with the new one last |
| `NvAppend.AppendList` | libnv/bsd_nvpair.c:1919-1969 | a copy of a list becomes the last element of a list array, linked behind the former last; refused for a list that has a parent or an error |
| `NvLists.AppendNvlist` | libnv/libnv.c:1556-1583 | on trees: the first list array of that name has one element more, or the list one array more; when it is refused the tree is the same and the error says exactly why |
| `NvLists.AddListArray` | libnv/bsd_nvpair.c:1389-1454 | a new array of one copied list, or the error that kept it out; nothing happens after an earlier error |
| `NvApi.Transfer` | libnv/libnv.c:965-981 | packing a list and unpacking the bytes gives new objects standing for the same tree with the same cached size |
| `FdtBlob.Fdt.NextTag` | libfdt/fdt.c:94-145 | reads a tag on arbitrary bytes exactly as the format function does, every length and bound check included |
| `FdtTokens.NextTagEnc` | libfdt/fdt.c:94-145 | on an encoded token it finds that token and the offset behind it |
| `FdtTokens.Progress` | libfdt/fdt.c:94-145 | a tag read always moves on, except for exactly one length field: 2^32 - 12 |
| `FdtTokens.StuckExample` | libfdt/fdt.c:94-145 | bytes on which it stays where it is |
| `FdtBlob.Fdt.NextNode` | libfdt/fdt.c:165-203 | the next node header with its depth, or the end of the enclosing node, or the error |
| `FdtBlob.Fdt.NodeEndOffset` | libfdt/fdt_wip.c:118-126 | the offset just behind the matching end tag |
| `FdtTree.EndOfNode` | libfdt/fdt_wip.c:118-126 | for a node of a tree that is the end of its own tokens, however deep it nests |
| `FdtIter.FirstSubnode` | libfdt/fdt.c:205-214 | the first child |
| `FdtIter.NextSubnode` | libfdt/fdt.c:216-231 | the next sibling, skipping everything below the current one |
| `FdtBlob.Fdt.SubnodeOffset` | libfdt/fdt_ro.c:159-176 | the first child that answers to a name; deeper nodes of that name are not found |
| `FdtTree.SubOfItems` | libfdt/fdt_ro.c:159-176 | on a tree: the first child in order whose name matches, unit address rules included |
| `FdtTree.NameMatchesIs` | libfdt/fdt_ro.c:58-77 | a node answers to its full name, and to the part before its unit address when the name asked for has none |
| `FdtBlob.Fdt.GetProperty` | libfdt/fdt_ro.c:327-354 | the first property of that name among the node's own |
| `FdtTree.PropOfItems` | libfdt/fdt_ro.c:327-354 | on a tree: properties behind the first child are not seen |
| `FdtOps.GetNodeProp` | libfdt/fdt_ro.c:383-399 | reads what the tree says |
| `FdtRw.FindAddString` | libfdt/fdt_rw.c:152-172 | finds the string, also as the end of another, or adds it at the end of the block |
| `FdtEdit.SpliceStruct` | libfdt/fdt_rw.c:125-137 | makes or closes a gap in the structure block; the string block moves along, everything before stays; no room exactly when the data would pass the total size |
| `FdtOps.SetNodeProp` | libfdt/fdt_rw.c:290-303 | setting a property changes that property and nothing else in the tree, the reserve map or the header; there is no room exactly when the data with the property and a new name would pass the total size, and the tree is then the same |
| `FdtSpec.GetPut` | libfdt/fdt_rw.c:290-303 | after setting a name it reads as set, every other name as before |
| `FdtOps.AddChild` | libfdt/fdt_rw.c:347-386 | a new child stands behind the properties; refused exactly when a child answers to the name, or when the data with its two tags would pass the total size |
| `FdtOps.DeleteChild` | libfdt/fdt_rw.c:393-405 | the tree without that child |
| `FdtOps.DeleteNodeProp` | libfdt/fdt_rw.c:332-345 | the tree without that property |
| `FdtOps.BlankChild` | libfdt/fdt_wip.c:128-139 | blanking a child in place |
| `FdtOps.BlankNodeProp` | libfdt/fdt_wip.c:104-116 | blanking a property in place |
| `FdtRefine.NopLikeDelete` | libfdt/fdt_wip.c:96-139 | a blanked item reads like a deleted one, from anywhere in the tree |
| `FdtRefine.AddThenDelete` | libfdt/fdt_rw.c:347-405 | on token sequences, deleting what was added gives back the sequence |
| `FdtRefine.AddAndDelete` | libfdt/fdt_rw.c:347-405 | the two calls one after the other leave the structure block, the strings and all before them byte for byte as they were, at any node and for any name |
| `FdtPath.SupernodeAtDepth` | libfdt/fdt_ro.c:511-545 | the ancestor at a depth, for every depth |
| `FdtPath.ParentOffset` | libfdt/fdt_ro.c:558-566 | the parent, found by walking from the root |
| `FdtGetPath.GetPath` | libfdt/fdt_ro.c:459-509 | writes the path of the node, or says there is no room exactly when its text with slashes passes the buffer |
| `FdtGetPath.PathTextIs` | libfdt/fdt_ro.c:459-509 | the path of the root is a slash; every other is that of its parent, a slash and its name |
| `FdtGetPath.PathOffset` | libfdt/fdt_ro.c:184-227 | follows an absolute path, empty components skipped, each step to the first child that answers |
| `FdtGetPath.CompsCat` | libfdt/fdt_ro.c:184-227 | a slash separates: the names of a path are those before it and those behind it |
| `FdtGetPath.PathRoundTrip` | libfdt/fdt_ro.c:184-509 | looking up a node's path gives the node back exactly when at each level no earlier sibling answers to its name |
| `FdtGetPath.PathAndBack` | libfdt/fdt_ro.c:184-509 | the two calls one after the other, with that condition |
| `FdtGetPath.PathLost` | libfdt/fdt_ro.c:58-77 | a well-formed tree where the lookup returns the earlier sibling a@0 for the path of a |
| `FdtOverlay.ApplyNode` | libfdt/fdt_overlay.c:601-646 | merging in place, with offsets that move under the edits, is the recursive merge of the two trees; it succeeds when the room for every property and child suffices; the overlay is only read, the reserve map kept |
| `FdtOverlay.MergeProps` | libfdt/fdt_overlay.c:601-646 | a property of the merged node reads as the overlay's last word, else as before |
| `FdtLayer.MergedReads` | libfdt/fdt_overlay.c:601-646 | at every path below, too, when the overlay names its children in full and once |
| `FdtLayer.MergeIsEdits` | libfdt/fdt_overlay.c:601-646 | for every overlay: the merge is its edits one by one in tree order, each node looked up by its names from the top and made in front if it is not there, each property set there |
| `FdtTarget.NodeByPhandle` | libfdt/fdt_ro.c:595-618 | the walk over all nodes returns the first node in tree order with that phandle, or says there is none |
| `FdtAim.ByHandleIs` | libfdt/fdt_ro.c:595-618 | that node is a node of the tree and has the phandle; when there is none no node has it |
| `FdtAim.TargetInside` | libfdt/fdt_overlay.c:103-145 | a target is always a node of the base tree |
| `FdtAim.TargetIs` | libfdt/fdt_overlay.c:103-145 | with a phandle it is the node that has it and no node before it in tree order has; without one, the node whose path answers to the components of target-path one by one, each as the first of its siblings; there is none exactly when no node is so |
| `FdtAim.TargetErrors` | libfdt/fdt_overlay.c:103-145 | bad phandle exactly for one that is not four bytes or is the reserved value, bad overlay exactly with neither property, not found when the node is not there |
| `FdtTarget.GetTarget` | libfdt/fdt_overlay.c:103-145 | the offset of the node the fragment is meant for, in the sense of FdtAim.TargetIs, or the error when there is none |
| `FdtFragments.ApplyFragment` | libfdt/fdt_overlay.c:667-690 | one turn of the loop: a fragment without an overlay node changes nothing, any other merges its overlay into its target |
| `FdtFragments.FragmentLocal` | libfdt/fdt_overlay.c:667-690 | the merge of one fragment puts the merged node where the node it is meant for was, and changes nothing around it |
| `FdtPlaces.ReadPut` | libfdt/fdt_overlay.c:601-646 | a node put at a place is read below it, and everything aside from the place and above it is as before |
| `FdtFragments.FragmentRun` | libfdt/fdt_overlay.c:663-693 | the trees between the fragments: each becomes the next by the fragment between them, up to the last or to the first fragment that is meant for no node |
| `FdtFragments.MergeOverlay` | libfdt/fdt_overlay.c:663-693 | merging an overlay runs through those trees, all fragments in order, each against the tree the ones before it left; on failure it stopped before a fragment that is meant for no node, with the error of its lookup, or there was not surely room |
| `FdtPhandle.AdjustNode` | libfdt/fdt_overlay.c:201-222 | every phandle of the overlay grows by delta in place, or the overlay is refused with the first error in tree order |
| `FdtPhandle.HandlesMove` | libfdt/fdt_overlay.c:201-222 | node by node the phandles are the old ones plus delta, none lost and none made up |
| `FdtMoves.MoveRefused` | libfdt/fdt_overlay.c:161-222 | the move is refused exactly when some phandle of some node is not four bytes or would reach the reserved value |
| `FdtMoves.MovedNode` | libfdt/fdt_overlay.c:161-222 | at every path: phandle properties, the first of either name, grew by delta and all others are the same |
| `FdtMaxPhandle.MaxPhandle` | libfdt/fdt_ro.c:92-116 | on every block of tokens the walk over all nodes returns the greatest phandle, the reserved last value apart; a block that just stops is read like one that ends |
| `FdtMaxPhandle.MaxOfTree` | libfdt/fdt_ro.c:92-116 | on a whole tree it is the greatest over all nodes of the tree |
| `FdtMaxPhandle.MaxOfBounds` | libfdt/fdt_ro.c:92-116 | it bounds every phandle that counts |
| `FdtMaxPhandle.MaxOfIsOne` | libfdt/fdt_ro.c:92-116 | it is one of them, unless it is zero |
| `FdtMaxPhandle.MovedBelow` | libfdt/fdt_overlay.c:161-184 | no moved phandle is the reserved value |
| `FdtFixup.UpdateNode` | libfdt/fdt_overlay.c:265-350 | the fixup walk on the tokens as they are at each moment, with every error; FdtListing.NodeSpelled says which cells that is |
| `FdtFixup.BoundIs` | libfdt/fdt_wip.c:58-76 | when the bound check of the partial write tells the truth |
| `FdtRefs.NodePlan` | libfdt/fdt_overlay.c:265-350 | when no fixup property is itself a target, the walk shifts exactly the cells the fixups list, in order |
| `FdtListing.NodeSpelled` | libfdt/fdt_overlay.c:265-350 | at every path below the fixups: the planned cells are those that the entries of its properties point at, each entry once, in the first property of that name of the node reached by the same names; a plan without error leaves none out, and there is no error exactly when every fixup node has its node and every fixup property fits |
| `FdtRefs.ShiftAllCell` | libfdt/fdt_overlay.c:299-329 | with distinct cells each listed cell ends as its old value plus delta |
| `FdtRefs.ShiftAllCellFrame` | libfdt/fdt_overlay.c:299-329 | every cell apart from the listed ones keeps its value |
| `FdtRefs.ShiftAllTimes` | libfdt/fdt_overlay.c:299-329 | a cell listed k times ends as its old value plus k times delta |
| `FdtRefs.ListedTwice` | libfdt/fdt_overlay.c:299-329 | a cell listed twice does not end as its old value plus delta |
| `FdtKept.NodeKeeps` | libfdt/fdt_overlay.c:265-350 | the fixup walk leaves every phandle of a moved overlay, whatever the fixups say and however the walk ends |
| `FdtKept.NodeAfter` | libfdt/fdt_overlay.c:265-350 | after it the tokens are again a tree of the same shape with the same phandles |
| `FdtFollow.NodeFollows` | libfdt/fdt_overlay.c:201-350 | after the phandles are moved the fixups list the same cells as before, or fail after a part of them, and no listed cell lies in a phandle |
| `FdtFollow.NodeShifted` | libfdt/fdt_overlay.c:201-350 | the cells that the fixups of the overlay as given list end as their old values plus delta |
| `FdtFollow.NodeSucceeds` | libfdt/fdt_overlay.c:201-350 | the walk after the first step ends well exactly when the plan of the overlay as given does and, unless nothing moves, no fixup property is itself a phandle |
| `FdtFollow.ShiftedApart` | libfdt/fdt_overlay.c:864-874 | phandles moved by the base tree's greatest one are above every one of the base, are not the reserved value, and are equal exactly where they were equal |
| `FdtRelocate.Relocate` | libfdt/fdt_overlay.c:864-878 | the first two steps of applying an overlay leave a tree whose phandles are the old ones plus the base tree's greatest, all above the base's and no two made equal; for a tidy overlay it succeeds exactly when all phandles can move and all fixups can be carried out, and then every cell that an entry at any path of the fixups aims at grew by delta, every phandle did, every other byte is the same, and each such cell names a node exactly if it named that node before |
| `FdtOutcome.Outcome` | libfdt/fdt_overlay.c:265-383 | the second step of a tidy overlay: when it succeeds, and every byte of the tree afterwards |
| `FdtOutcome.EntryAims` | libfdt/fdt_overlay.c:299-329 | when the fixups can be carried out every entry aims at a cell |
| `FdtMisled.Misled` | libfdt/fdt_overlay.c:329-347 | an overlay carried out without error where a cell that an entry aims at is the same as before, because another entry aims at that entry |
| `FdtRelocate.BoundFooled` | libfdt/fdt_wip.c:58-76 | a well-formed overlay whose fixup offset 2^32 - 4 passes the bound check |
| `FdtWriter.Create` | libfdt/fdt_sw.c:88-108 | the writer starts with a sound layout exactly when the buffer reaches 48 bytes |
| `FdtWriter.CreatedTooShort` | libfdt/fdt_sw.c:88-108 | a buffer accepted with the map behind its end |
| `FdtWriter.AddReserveEntry` | libfdt/fdt_sw.c:142-163 | an entry goes behind the map; the blocks stay apart exactly when there is room beside the strings |
| `FdtWriter.ReserveOverStrings` | libfdt/fdt_sw.c:142-163 | calls after which an entry was accepted and lies over the strings |
| `FdtWriter.BeginNode` | libfdt/fdt_sw.c:170-184 | fails exactly when the header does not fit, and records the call otherwise |
| `FdtWriter.EndNodeSw` | libfdt/fdt_sw.c:186-198 | the same for the end tag |
| `FdtWriter.FindAddName` | libfdt/fdt_sw.c:200-221 | a name is found or added in front of the string block; no room exactly when it must be added and does not fit |
| `FdtWriter.RoomForIs` | libfdt/fdt_sw.c:210-214 | when the 32-bit room check tells the truth |
| `FdtWriter.Property` | libfdt/fdt_sw.c:223-255 | succeeds exactly when name and value fit; when only the name does it stays in the string block; in every case the blocks do not meet and all earlier calls read as before |
| `FdtWriter.Finish` | libfdt/fdt_sw.c:257-300 | strings move down, names become offsets; a reader finds exactly the calls made, and the reserve map is untouched |
| `FdtReadBack.ReadBack` | libfdt/fdt_sw.c:257-300 | the calls for a tree read back as that tree |
| `FdtWriteTree.WriteNode` | libfdt/fdt_sw.c:170-255 | the calls for a tree all succeed exactly when its structure and its names, each stored once, fit |
| `FdtWriteTree.WriteTree` | libfdt/fdt_sw.c:88-300 | create, reserve map, tree, finish: succeeds exactly when the computed size fits, and the blob then holds the tree and the map |
| `FdtWriteTree.NumMemRsv` | libfdt/fdt_ro.c:126-133 | counts the entries up to the first of size zero: all of them exactly when none is |
| `FdtWriteTree.CountStopsEarly` | libfdt/fdt_ro.c:126-133 | a blob with two regions of which none is counted |
| `FdtWriteTree.GetMemRsv` | libfdt/fdt_ro.c:118-124 | reads entry n of the map |
| `Md5Block.Transform` | libutil/md5.c:222-324 | the sixty-four unrolled steps are the operations of section 3.4 of RFC 1321 in order |
| `Md5Empty.EmptyDigest` | libutil/md5.c:145-324 | the digest of the empty message is the first one that section A.5 of RFC 1321 lists |
| `Md5.CountStep` | libutil/md5.c:155-158 | the two-word counter with its hand-made carry counts bits modulo 2^64 |
| `Md5.Context.Update` | libutil/md5.c:145-178 | a chunk is absorbed, exactly unless the bytes waiting and the chunk together reach 2^32 |
| `Md5.Context.Pad` | libutil/md5.c:184-200 | appends the padding of RFC 1321 for the message so far |
| `Md5.PaddedWhole` | libutil/md5.c:184-200 | padding ends at a block boundary after at most 72 bytes |
| `Md5.Context.Final` | libutil/md5.c:207-218 | gives the digest of the whole message and clears the context |
| `Md5.DigestOf` | libutil/md5.c:145-218 | however a message is cut, the digest is that of the whole, exactly when no chunk makes the loop counter wrap |
| `Flash.VarStore.Write` | src/bootrom.c:180-313 | the handler's read and write states do what a flash chip with one mode does; what that chip does is said by the runs below |
| `Flash.VarStore.Handle` | src/bootrom.c:319-338 | accepts exactly the accesses inside the store, addresses modulo 2^64; a refused one changes nothing |
| `Flash.VarStore.Reset` | src/bootrom.c:151-159 | back to reading the array, memory kept |
| `Flash.VarStore.SetVisible` | src/bootrom.c:113-127 | direct reads are turned on or off only when the host agrees |
| `Flash.VarStore.constructor` | src/bootrom.c:98-111 | the store after its file is mapped |
| `Flash.StepCoherent` | src/bootrom.c:180-313 | an access keeps direct and trapped reads in agreement exactly when it is not a refused hide |
| `Flash.RunCoherent` | src/bootrom.c:113-313 | over a run: they agree after every access exactly when no hide is refused on the way |
| `Flash.DirectReads` | src/bootrom.c:161-178 | after any such run from power-up a direct read gives what a trapped read would |
| `Flash.CommandShows` | src/bootrom.c:261-312 | what an idle chip shows after each command; no command changes the array, and only command zero stops the machine |
| `Flash.EraseBlock` | src/bootrom.c:204-217 | the erase command and any write after it set the 0x40000 bytes from there, as far as the store reaches, to 0xff, and nothing else; the chip is then idle and shows the status |
| `Flash.ProgramOne` | src/bootrom.c:188-197 | a program command and a value: the low bytes of the value are there, every other byte is the same, and the chip is idle and shows the status |
| `Flash.LockBlock` | src/bootrom.c:243-251 | locking changes nothing |
| `Flash.RebootShows` | src/bootrom.c:151-159 | a reset ends whatever was going on and shows the array as it is |
| `Flash.ProgramBuffer` | src/bootrom.c:197-242 | setup, count n, then words: busy until the last of n + 1, whatever the values, then idle, with exactly those words written |
| `Flash.ProgramReadBack` | src/bootrom.c:161-313 | every programmed word reads back |
| `Flash.PutAllFrame` | src/bootrom.c:218-242 | bytes no word covers keep their value |
| `Basl.Linker.constructor` | src/basl.c:389-426 | the two root tables with headers and no entries |
| `Basl.Linker.AppendBytes` | src/basl.c:500-529 | appends, or fails exactly for no bytes or a length that would wrap |
| `Basl.Linker.AppendHeader` | src/basl.c:587-621 | a headed table is sound: its fields are apart and zero, and its checksum covers the whole table however it grows (BaslRoot.HeaderInMemory) |
| `Basl.Linker.AppendPointer` | src/basl.c:647-659 | a pointer field at the end keeps the table sound |
| `Basl.Linker.AppendLength` | src/basl.c:635-645 | so does a length field |
| `Basl.Linker.AppendChecksum` | src/basl.c:531-541 | so does a checksum byte exactly when no whole-table checksum was asked for before |
| `Basl.Linker.BuildRsdp` | src/acpi.c:661-696 | the root pointer table with its two ranges is sound |
| `Basl.Linker.RegisterToRsdt` | src/basl.c:693-708 | both root tables gain the same entry and stay in step |
| `AcpiBuild.SoundAddedChecksum` | src/basl.c:428-449 | a further checksum keeps a table sound exactly when no earlier range covers its byte |
| `AcpiBuild.SoundGrown` | src/basl.c:500-529 | growing a table keeps it sound |
| `Basl.Linker.SetLength` | src/basl.c:331-345 | fills every length field in order |
| `Basl.Linker.Install` | src/basl.c:146-186 | places a table in 32-bit arithmetic, offers it, asks for it in front of the script, and copies it |
| `BaslLayout.ClearLow` | include/common.h:77 | clearing low bits gives the greatest multiple of a power of two |
| `BaslLayout.FinalSpread` | src/basl.c:146-186 | tables loaded in memory lie in order, on multiples of their alignments, inside memory and apart |
| `BaslLayout.FinalTight` | src/basl.c:146-186 | no room is lost: the first at the base, each other at the next multiple of its alignment behind the one before |
| `Basl.Linker.FindTable` | src/basl.c:254-272 | the first table whose signature compares equal |
| `AcpiScript.SameSignatureIs` | src/basl.c:254-272 | signatures compare equal in all four bytes, or up to a zero byte in both |
| `Basl.Linker.PatchPointers` | src/basl.c:274-329 | adds each address in place and to the script; fails exactly when a signature is missing |
| `Basl.Linker.PatchChecksums` | src/basl.c:188-252 | cancels each range in place, in order, and asks for it in the script |
| `Basl.Linker.Finish` | src/basl.c:347-387 | succeeds exactly when every table gets a place and every pointer finds its table; memory then holds every table linked and nothing outside the area changed, and the script is the one for these tables |
| `AcpiScript.ScriptLinks` | include/qemu_loader.h:23-61 | running the script gives every file as linking in place gives the table |
| `AcpiScript.AllocsAre` | src/basl.c:160-164 | the script asks for every table by name with its alignment before it patches any |
| `BaslRoot.LoaderAgrees` | src/basl.c:146-387 | for sound tables with distinct file names, put by the loader at the addresses used here, the loader's copies equal the tables in guest memory |
| `BaslRoot.SumsInMemory` | src/basl.c:188-252 | every checksum range of every finished table sums to zero modulo 256, after all patching |
| `BaslRoot.LengthsInMemory` | src/basl.c:331-345 | every length field holds the table's length |
| `BaslRoot.HeaderInMemory` | src/basl.c:587-621 | every table with the common header has its length in bytes 4 to 8, and all its bytes sum to zero modulo 256 |
| `BaslRoot.BytesInMemory` | src/basl.c:146-387 | bytes that no field covers stand in memory as they were built |
| `BaslRoot.PointersInMemory` | src/basl.c:274-329 | every pointer field holds the address of the first table with its signature |
| `BaslRoot.RootEntries` | src/basl.c:693-708 | entry k of RSDT and of XSDT hold the same address, that of the table registered as number k by signature |
| `BaslRoot.RootNames` | src/basl.c:254-272 | that is the registered table itself exactly when no table made before it has its signature |
| `BaslRoot.RsdpInMemory` | src/acpi.c:661-696 | both ranges of the root pointer sum to zero and it leads to RSDT and XSDT |
| `BaslMachine.BuildAll` | src/acpi.c:750-775 | building the root pointer and then any list of tables, listed in the root tables or not, fails exactly when one cannot be appended, and leaves sound tables with every entry in step |
| `BaslMachine.BuildMachine` | src/acpi.c:727-778 | from empty to finished: succeeds exactly when every table gets a place, surely when memory has room for all; guest memory then leads from the root pointer through both root tables to every listed table, every table stands there byte for byte as asked for with its length and a whole-table sum of zero, and the script is the one for these tables |
| `BaslMachine.AllDelivered` | src/acpi.c:727-778 | signature, length, revision, maker's fields and body of each listed table, and that all its bytes sum to zero; loose tables unchanged; the two root tables with as many entries as tables listed |
| `BaslMachine.ListingIs` | src/basl.c:693-708 | the listed tables are those of the listed recipes, in order, each once |
| `BaslMachine.TwoAlike` | src/basl.c:693-708 | a machine with two tables of one signature whose two entries hold one address |
| `AcpiScript.ChecksumPlaces` | src/basl.c:222-248 | when the in-memory checksum byte and the script's are the same byte |
| `AcpiScript.ChecksumElsewhere` | src/basl.c:222-248 | a range starting at one where memory and script differ |
| `AcpiBuild.CoveredChecksum` | src/basl.c:193-249 | when an earlier range survives a later checksum byte inside it |
| `Acpi.ChecksumIs` | src/basl.c:244-248 | a patched range sums to zero exactly when its checksum byte was zero before |
| `Acpi.ChecksumLeft` | src/basl.c:244-248 | bytes whose range does not sum to zero after patching |

## Findings

Places where a property one would expect of the code fails. For each, the member that shows the
input and the one that says exactly when the code does meet it.

| where | what fails | shown by | holds exactly when |
|---|---|---|---|
| libfdt/fdt.c:94-145 | reading a tag need not move on, so a walk need not end | `FdtTokens.StuckExample` | the length field is not 2^32 - 12 (`FdtTokens.Progress`) |
| libfdt/fdt_ro.c:184-509 | a node's path can lead to another node | `FdtGetPath.PathLost` | no earlier sibling answers to the name, at every level (`FdtGetPath.PathRoundTrip`) |
| libfdt/fdt_sw.c:142-163 | a reserve entry may be written over the string block | `FdtWriter.ReserveOverStrings` | there is room beside the strings (`FdtWriter.AddReserveEntry`) |
| libfdt/fdt_sw.c:88-108 | a buffer of 40 to 47 bytes is accepted with the map beginning behind its end | `FdtWriter.CreatedTooShort` | the buffer reaches 48 bytes (`FdtWriter.Create`) |
| libfdt/fdt_sw.c:210-214 | the room check for a new name wraps and lets a name through that starts before the buffer | `FdtWriter.RoomForLiesAtStart` | the strings and the name together do not pass the total size (`FdtWriter.RoomForIs`) |
| libfdt/fdt_wip.c:71 | the bound check of a partial write wraps for the last four offsets | `FdtRelocate.BoundFooled` | the offset plus four does not wrap to a length in bounds (`FdtFixup.BoundIs`) |
| libfdt/fdt_overlay.c:299-329 | a cell that two fixups list is shifted twice | `FdtRefs.ListedTwice` | it is listed once (`FdtRefs.ShiftAllTimes`), or the further shifts add up to a multiple of 2^32 |
| libfdt/fdt_overlay.c:329-347 | a fixup entry that another entry points at is shifted before it is read, so its cell is not | `FdtMisled.Misled` | if no entry points into the fixups and no two at overlapping cells (`FdtRelocate.Relocate`); one way only |
| libfdt/fdt_ro.c:126-133 | a reserved region of size zero ends the count early | `FdtWriteTree.CountStopsEarly` | no region has size zero (`FdtWriteTree.NumMemRsv`) |
| libutil/md5.c:165 | the block loop runs past a chunk | `Md5.NotChunkable` | the bytes waiting and the chunk stay below 2^32 (`Md5.Context.Update`, `Md5.DigestOf`) |
| src/bootrom.c:129-138 | when hiding the array fails, direct reads see the array where the status is due | `Flash.RefusedHide` | no hide is refused (`Flash.RunCoherent`) |
| src/basl.c:193-249 | a checksum byte inside an earlier range spoils that range | `AcpiBuild.CoveredExample` | the later range already summed to zero (`AcpiBuild.CoveredChecksum`); never for ranges that do not cover later bytes (`BaslRoot.SumsInMemory`) |
| src/basl.c:222-248 | a range that does not start at zero puts the byte elsewhere in memory than in the script | `AcpiScript.ChecksumElsewhere` | the range starts at zero, or nothing needs cancelling and the other byte is zero (`AcpiScript.ChecksumPlaces`) |
| src/basl.c:248 | the summed range is not zero when its byte was not zero before | `Acpi.ChecksumLeft` | the byte was zero (`Acpi.ChecksumIs`) |
| src/basl.c:693-708 | two tables with one signature are both listed as the first | `BaslMachine.TwoAlike` | no table made before has the signature (`BaslRoot.RootNames`) |

## Left out

- libnv: file descriptors, dumping, the getter families, cookies, and `size_t` overflow of the cached sizes.
- libnv: the pair named " " that carries the link from one array element to the next is a direct link here; lists and pairs are fields of classes, destroying objects is not modelled beyond a removed pair, so lists handed over and refused simply stay.
- NvPack.Pack: packs root lists only; packing a list that hangs in another one is not modelled.
- NvPack.Pack: writes the canonical data size of list arrays and item count of scalars; the code writes back whatever these header fields held when the pair was unpacked (libnv/bsd_nvpair.c:604-667), so for such a pair from foreign bytes the packed bytes can differ there.
- NvRoundTrip.RoundTrip: in the other byte order for packed sizes below 2^56, where the overflow check on the size field, made before the bytes are swapped (libnv/libnv.c:986), cannot misfire.
- NvApi.Add: the lists handed over are distinct and must not contain the list they are added to; a list nested in itself, or twice in one array, is not modelled.
- NvApi.Add: when lists are ignored or refused the model leaves them as they are, so that the store stays consistent. The code does more there: after an earlier error it destroys a single list that has a parent (libnv/libnv.c:1640-1641) and array elements that have none (1752-1757); it destroys a list refused for its error or its name (libnv/bsd_nvpair.c:1534-1542); and for a refused array it keeps the links already made between elements and destroys those that have a parent (1688-1696, 1712-1717). Where it destroys a list that still hangs in another one, the contract's claim about the rest of the store is not one about the code.
- NvLists.AddListArray: adds arrays of one list; the errno a failing copy leaves behind is a parameter, as it is in NvAppend.AppendList.
- libfdt: header fields are kept beside the buffer; versions other than 17, `fdt_open_into`, `fdt_pack`, `fdt_resize`, `fdt_appendprop`, `fdt_set_name`, edits of the reserve map, string lists and lookups by property value.
- libfdt walks: node and property offsets are those of tokens, and the structure block is a run of well-formed tokens; only FdtBlob.Fdt.NextTag takes arbitrary bytes.
- FdtGetPath.PathOffset: absolute paths only, no aliases.
- FdtGetPath.GetPath: names of the nodes before the one asked for hold no slash.
- FdtWriter.Property: a name that has to be added is not longer than the whole space outside the strings, where the room check of the code tells the truth; the same bound on all names together stands in FdtWriteTree.WriteTree.
- FdtFixup.UpdateNode: a write that the wrapped bound check lets out of its property is reported as a fault and not carried out; cells are read only where the check passes.
- Overlays: fixups of references into the base tree (libfdt/fdt_overlay.c:412-579) and the update of symbols (695-862).
- FdtTarget.GetTarget: a target path that is not absolute, which the code looks up as an alias, and one without a terminating zero are reported as codes of their own and not followed.
- FdtRelocate.Relocate: what it says about references is for tidy overlays: no fixup entry points into the fixups themselves, and no two at cells that overlap. FdtMisled.Misled and FdtRefs.ListedTwice show why; that is not an if and only if, since a misled entry can hit the right cell by chance. What it says about phandles has no such condition.
- FdtOverlay.ApplyNode: running out of room is bounded from one side, by room that suffices; where it happens inside the merge is exact in FdtOps.SetNodeProp and FdtOps.AddChild. FdtFragments.MergeOverlay likewise.
- FdtLayer.MergedReads: for overlays that name each child in full and once; FdtOverlay.ApplyNode has no such condition.
- Flash: mapping the file, the ROM itself, and the address space allocator; whether the host agrees to show or hide the array is a parameter.
- Basl: tables are records in the list and named by their number, so two names for one table are not modelled; allocation failures, `basl_table_append_fwcfg`, the contents of the other tables, the ASL compiler, and the byte layout of loader commands.
- Basl.Linker.Finish: guest memory for the tables ends 0xf2400 bytes or more below 4 GB, alignments are powers of two up to 0xf2400, checksum ranges start at zero, and a table that is not empty has four bytes for its signature.
- BaslMachine.BuildMachine: tables are a header and raw pieces, or raw bytes; tables with pointers of their own (FADT) and loading over fw_cfg of the ASL output are not in the list, though Basl.Linker.AppendPointer keeps soundness for the first.
- BaslRoot.LoaderAgrees: asks for sound tables (fields apart and zero, no range over a later checksum byte: what the builders of Basl.Linker keep), as do the other statements about finished memory, and for distinct file names.
- AcpiScript.Exec: the loader's meaning is the documented one; where it puts the files is a parameter.
