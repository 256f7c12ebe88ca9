# Verified model of the xnode library

The library keeps trees of map and array nodes. Every node has a pointer to its parent, a name and a
container of values, and these are three separate pieces of state that each operation changes in
several steps. This project models them, and what is built on them, in Dafny and proves properties of
the model. `dafny verify dfyconfig.toml` checks all of it.

## What is modelled

- **Values** (`XValue.dfy`, `Order.dfy`): equality, emptiness and the three-way comparison with its
  truncation to 32 bits. An object is its address, counted in units of the pointer type.
- **The two-way tree** (`Boxes`, `Worlds`, `TreeOps`, carried out step by step by the class in
  `Nodes`). Each public operation is one atomic step, and assertions do nothing, as in a release
  build. `Agreement` says when containers, parents and names agree. `TreeAgreement`, `Adoptions`,
  `KeyChanges`, `Exchanges`, `Amends`, `Releases`, `BulkInserts` and `ArrayInserts` say for every
  operation exactly which calls keep the agreement. `BulkSet` and the mutating `ForEach` first write
  their entries and move the nodes afterwards (`Writings`). `Settling` and `WriteAgreement` have the
  condition that covers every such call, on the container as it is written; `MapWrites`, `MapBatches`,
  `MapCalls` and `SingleWrites` put it in terms of the map before the call, `ArrayWrites` and
  `ArrayCalls` in terms of the array and the keys. `Forest` and `Writings` show that all of them keep
  the parent pointers a forest; `TreeRuns` puts calls together to runs, and `Moves` takes them apart
  into single steps, which keep the forest whatever listeners veto. `Effects` and `BulkEffects` say
  what a successful call leaves for readers, and `WriteEffects` what a `BulkSet` or a `ForEach` leaves
  that keeps the agreement. `Outcomes` says when the operations succeed and what they answer, in terms of
  what is read before, `BatchReads` what `BulkErase` and `BulkInsert` make of a map pair by pair, and
  `Visits` which entries a mutating `ForEach` shows. `Breakages` has inputs for which calls succeed and
  break the agreement, for each kind of call that asks something of its caller.
- **The containers with times and listeners**: the map that keeps erased keys (`TimedMaps`,
  `MapContainer`), the array (`ArrayContainer`), the change callbacks with veto, expiry and rollback
  (`Callbacks`), and a map node at work (`NodeMaps`, `MapNode`): positional access, replay of changes
  by a listener, extraction of changes by time stamp. `Iterations` ties their iterations to those of
  the tree operations.
- **Concurrency** as state machines over the atomic steps of any number of threads: the unique clock
  (`Clock`) and the creation of a missing node (`CreateOnce`), whose exchange is tied to that of the tree
  in `Outcomes`.
- **Text and events**: the text of paths (`XPath`), and JSON as a stream of events between the writer
  and the handler with its stack (`Json`), and the grammar that what is written meets (`JsonDocs`).
- **Recursive algorithms**: `ParentsCheck`, `Compare`, `Clone`, reading and writing along paths
  (`Paths`) and `PatchApply` (`Patch`, `Changes`), over trees as values (`Trees`, `FiniteTrees`).

Clocks are read from parameters, callbacks are arbitrary functions of what they have been told so
far, addresses of new nodes are larger than all in use.

## What turned out differently from what one might expect

- `Set` and `Insert` of a node give it its new name before the former parent is searched by that name.
  If the former map has an entry under the new key, that entry is erased and the node stays in both
  maps. `ParentSet` has the same condition. `BulkInsert` detaches first and has none.
- `Set` of a node at kIdxLast of an array drops the slot again as a duplicate, unless the array already
  held the node. `Set` of a node into the map that holds it leaves it under two keys. `ParentSet` onto
  the name of another node and `CompareExchange` of a node for another value leave a node with a
  parent that does not hold it. `KeyChange` to a key the container cannot take loses the value.
- `BulkSet` and the mutating `ForEach` detach a displaced node after its entry has been overwritten, and
  by its name: the new entry goes with it. A node written over another node is therefore lost to its
  new parent, and a plain value over a node is lost as well. When `BulkSet` cannot take a node out of the
  entry that the batch gave it before, it goes on to the next pair within the same turn, and behind the
  last pair it reads past the end.
- In arrays the two take a node that they have written out again as its own duplicate, when the key that
  they remember for it is not the position of its slot: an iteration that began behind the first slot or
  has erased a slot counts what it has shown, and `BulkSet` at kIdxLast remembers kIdxLast. The node still
  gets the array as parent.
- `Append` and `Increment` replace an entry in place, be it a node, which keeps its parent. Where there is
  no entry they answer an empty value, and where an entry has been erased they store nothing. `NameSet` to
  the empty name makes a map lose its child.
- A patch does not store a link to its target or to a node above it: `Set` refuses it, and the patch is
  applied without being covered.
- `KeyChange` and changes in place keep the old time stamp, so that a later extraction of changes may
  miss them; the exact conditions are proved.
- `Emplace` and `KeyChange` refuse a key that only has an erased entry. In the mutating iteration the
  listeners are asked twice about an erasure in a map, and in an array they are told the index after
  the one that is shown.
- `Set` of a path succeeds and stores into a node that nobody can reach when a key on the way is empty
  or the first node is an array. A `Set` that fails because its last key is empty may have put new nodes on
  the way. The mutable `At` of a path creates the nodes that are missing on the way.
- `Compare` drops the empty slots of one side only: an array with an empty slot compares as different
  from itself. Differences that are multiples of 2^32 count as equal.
- A path key of closing braces only survives printing and parsing; a key that ends in a colon does not
  survive before another plain key.
- JSON turns empty array slots into null and unsigned integers beyond the signed range into negative
  ones; everything else survives.

## Model

| member | source | states |
|---|---|---|
| XValues.CompareZeroIffEqual | src/xvalue/xvalue.cpp:33-76 | Three-way comparison answers 0 exactly when equality holds, except where the 32-bit truncation hides a non-zero multiple of 2^32: both directions, no bound on the values |
| XValues.CompareFlips | src/xvalue/xvalue.cpp:54-76 | Swapping the arguments flips the sign exactly when the truncated difference is not the smallest 32-bit integer |
| XValues.CompareIsTotalPreorder | src/xvalue/xvalue.cpp:33-76 | For values less than 2^31 apart: reflexive, total, transitive across all value types, and 0 exactly on equal values |
| XValues.FarIntegersCompareEqual | src/xvalue/xvalue.cpp:60-61 | Two integers that differ by 2^32 compare as 0 although they are not equal |
| XValues.CompareOrders | src/xvalue/xvalue.cpp:54-76 | Which of two values of one type is less: the smaller number, false before true, the lower address, the string that is smaller at the first difference, for integers and addresses less than 2^31 apart |
| XValues.CompareOrdersTypes | src/xvalue/xvalue.cpp:54-76 | Across types: nothing, null, bools, integers, doubles, strings, objects |
| XValues.StrCmpOrders | src/xvalue/xvalue.cpp:63-66 | Up to the first NUL, a string is less exactly when at the first difference it has the smaller character or has ended, and the same exactly when both end without a difference |
| XValues.IntegerIsNearest | src/xvalue/xvalue.cpp:178-200 | What an integer counts as in comparisons: the largest signed number that is not above it |
| XValues.EqMeans | src/xvalue/xvalue.cpp:33-52 | Two values are equal exactly when they are the same, two integers of one number, two strings that end without a difference, or two links to one object |
| Order.LessOrders | src/xcontainer/impl/xcontainer_map.h:15 | A key is less than another exactly when it has ended, or has the smaller character, at the first difference |
| Order.SortedIsUnique | src/xcontainer/impl/xcontainer_map.h:15 | A set of keys has only one increasing listing, so iteration order is determined by the keys |
| Order.SkipToLeaves | src/xcontainer/impl/xcontainer_map.cpp:39-73 | From a key of a sorted listing on there are just the keys that are not before it, in order |
| NodeMethods.Nodes.IsValidParent | src/xnode/impl/xnode_impl.cpp:886-902 | Rejects exactly when the target is the node or below it; the exit for cyclic parents is never taken; the walk ends |
| NodeMethods.Nodes.IsValidChild | src/xnode/impl/xnode_impl.cpp:904-926 | Rejects exactly when the value is the node itself or one of its ancestors; the exit for cyclic parents is never taken |
| Worlds.NoCycle | src/xnode/impl/xnode_impl.cpp:886-926 | No node is its own proper ancestor |
| Worlds.ReparentKeepsForest | src/xnode/impl/xnode_impl.cpp:773-797 | A new parent keeps the forest when it is neither the node nor below it |
| Holding.ErasedBoxIff | src/xnode/impl/xnode_impl.cpp:799-819 | Erasing a node from its former holder works exactly when its current name does not lead to another entry |
| NodeMethods.Nodes.PrivateParentSet | src/xnode/impl/xnode_impl.cpp:773-797 | Changes parent pointer and name as specified, keeps the forest |
| NodeMethods.Nodes.PrivateErase | src/xnode/impl/xnode_impl.cpp:799-819 | Takes the entry under the current name, else the first entry that is the node |
| NodeMethods.Nodes.SetAsChild | src/xnode/impl/xnode_impl.cpp:928-945 | New parent first, then out of the former one |
| Agreement.SetAsChildSettles | src/xnode/impl/xnode_impl.cpp:928-945 | A node that its new holder already stores is settled exactly when its new name does not lead its former holder to another entry |
| NodeMethods.Nodes.ParentSet | src/xnode/impl/xnode_impl.cpp:87-109 | Carries out the specified change of all three pieces of state and answers success and the former parent as specified |
| NodeMethods.Nodes.ParentDetach | src/xnode/impl/xnode_impl.cpp:111 | The node leaves its parent and the container of the parent |
| NodeMethods.Nodes.Set | src/xnode/impl/xnode_impl.cpp:322-351 | As specified, step by step, with the replaced value as answer |
| NodeMethods.Nodes.Insert | src/xnode/impl/xnode_impl.cpp:353-381 | As specified, step by step, with key and existing value as answer |
| NodeMethods.Nodes.Erase | src/xnode/impl/xnode_impl.cpp:383-396 | As specified, with the erased value as answer |
| NodeMethods.Nodes.KeyChange | src/xnode/impl/xnode_impl.cpp:163-190 | As specified, step by step |
| NodeMethods.Nodes.CompareExchange | src/xnode/impl/xnode_impl.cpp:449-490 | Succeeds exactly when what is there equals the expected value, or nothing is there and an empty value was expected; answers the expected value, or else the one that is there; carries out the rest as specified, including that the outcome of the store is not looked at |
| NodeMethods.Nodes.Amend | src/xnode/impl/xnode_impl.cpp:398-447 | Append and Increment: an entry is replaced in place by what is made of it, a missing one is emplaced; answers the new value just where something is there |
| NodeMethods.Nodes.NameSet | src/xnode/impl/xnode_impl.cpp:119-149 | A child of a map is renamed by the map, if that may be updated, anything else by itself; answers the former name |
| NodeMethods.Nodes.Clear | src/xnode/impl/xnode_impl.cpp:213-233 | As specified: the nodes are collected, the container is emptied, each node is detached |
| NodeMethods.Nodes.BulkErase | src/xnode/impl/xnode_impl.cpp:718-746 | As specified: keys are resolved before any of them is erased |
| NodeMethods.Nodes.BulkInsert | src/xnode/impl/xnode_impl.cpp:589-652 | As specified; the rejected pairs come back in order, a duplicate with the key of the slot that holds it, a refused value replaced by the one that is there |
| NodeMethods.Nodes.BulkSet | src/xnode/impl/xnode_impl.cpp:513-587 | As specified: all entries are written first, then the displaced nodes are detached, then the written ones adopted; keeps the forest |
| NodeMethods.Nodes.ForEach | src/xnode/impl/xnode_impl.cpp:255-320 | As specified, with any function of the caller: entries are erased or overwritten in place, then the nodes are settled as for BulkSet; keeps the forest; answers whether there was anything to show |
| NodeMethods.Nodes.BulkInsertAt | src/xnode/impl/xnode_impl.cpp:654-716 | As specified; answers how many values went in, where the last of them did, and the rejected ones |
| Outcomes.SetOkIff | src/xnode/impl/xnode_impl.cpp:322-351 | Set succeeds exactly when the value may be a child, its key has a place and another value is read there; a failure changes nothing but the slots that an array has gained |
| Outcomes.InsertOkIff | src/xnode/impl/xnode_impl.cpp:353-381 | Insert succeeds exactly when the value may be a child and an array does not hold that node, or a map has no entry under the key, not even an erased one; a failure changes nothing |
| Outcomes.EraseOkIff | src/xnode/impl/xnode_impl.cpp:383-396 | Erase succeeds exactly when a value is read under the key, in a map one that is not the empty value; a failure changes nothing |
| Outcomes.ParentSetOkIff | src/xnode/impl/xnode_impl.cpp:87-109 | ParentSet succeeds exactly when the new parent is neither the node nor below it nor its parent already, and a map gets a node with a name |
| Outcomes.KeyChangeOkIff | src/xnode/impl/xnode_impl.cpp:163-190 | KeyChange succeeds exactly when both keys are given and of one kind, nothing is stored under the new one, and Erase would succeed at the old one |
| Outcomes.NameSetEffect | src/xnode/impl/xnode_impl.cpp:119-149 | NameSet fails exactly when a child of a map is to get another name and the map may not, or cannot, follow; after a success the node has the new name, every other node its own |
| Outcomes.ExchangeOkIff | src/xnode/impl/xnode_impl.cpp:449-490 | CompareExchange succeeds exactly when what is there equals the expected value, or nothing is there and an empty value was expected; a failure changes nothing |
| Outcomes.ExchangeOfThread | src/xnode/functions/insert_get.cpp:76-103 | The exchange that a thread of CreateOnce makes is CompareExchange of the node it created: it succeeds in the same cases, leaves the same value under the key, and a failure hands over what is there |
| Outcomes.AmendReads | src/xnode/impl/xnode_impl.cpp:398-447 | Where something is there, the key reads what is made of it and everything else as before; where nothing is, the start value goes in as by Insert |
| Effects.PutReads | src/xcontainer/impl/xcontainer_array.h:87-105 | After a successful set the key reads the value, everything else as before, gained slots as empty |
| Effects.EmplaceReads | src/xcontainer/impl/xcontainer_array.cpp:117-137 | After a successful emplace the answered key reads the value; an array has moved up by one from there |
| Effects.EraseReads | src/xcontainer/impl/xcontainer_array.cpp:139-151 | After a successful erase a map reads empty, an array has moved down by one |
| Effects.PlainSetEffect | src/xnode/impl/xnode_impl.cpp:322-351 | A stored plain value; a displaced node loses its parent; every other container, parent and name is the same |
| Effects.NodeSetEffect | src/xnode/impl/xnode_impl.cpp:322-351 | A stored node has the new parent and key as name and has left its former container; a displaced node loses its parent; nothing else changes |
| Effects.ArraySetEffect | src/xnode/impl/xnode_impl.cpp:322-351 | A node set within its own array stands at the new place only; a node that was there loses its parent; nothing else changes |
| Effects.InsertEffect | src/xnode/impl/xnode_impl.cpp:353-381 | The same for insertion |
| Effects.InsertReplyReads | src/xnode/impl/xnode_impl.cpp:353-381 | The key that Insert answers reads the value after a success; after a failure it is that of the slot which holds the node, or the given one with what the map has there |
| Effects.EraseEffect | src/xnode/impl/xnode_impl.cpp:383-396 | The entry goes, a node that was there loses its parent and keeps its name; nothing else changes |
| Effects.ClearEffect | src/xnode/impl/xnode_impl.cpp:213-233 | The container is empty, exactly the children lose their parent; nothing else changes |
| Effects.BulkEraseEffect | src/xnode/impl/xnode_impl.cpp:718-746 | The nodes among the erased entries lose their parent; nothing else changes |
| Effects.ParentSetEffect | src/xnode/impl/xnode_impl.cpp:87-109 | The node is held by its new parent under its name or at the end, and has left its former container; nothing else changes |
| Effects.KeyChangeEffect | src/xnode/impl/xnode_impl.cpp:163-190 | For maps and arrays and all keys: a map moves the value to the new key, an array behind the end, a container that does not accept the key has lost it; a node gets a string key as name; parents and other containers are the same |
| Effects.CompareExchangeEffect | src/xnode/impl/xnode_impl.cpp:449-490 | Where that is safe: the key reads what is stored, a stored node has moved, nothing else changes |
| BulkEffects.BulkInsertEffect | src/xnode/impl/xnode_impl.cpp:589-652 | Every node that went in has the new parent and in a map its key as name, and its former container is without it; nothing else changes |
| BatchReads.ExtractReads | src/xnode/impl/xnode_impl.cpp:718-746 | BulkErase of a map answers the values that the keys lead to, in the order of the keys, each of them once and no empty one, and leaves the given keys empty and all others as they were |
| BatchReads.FillReads | src/xnode/impl/xnode_impl.cpp:589-652 | BulkInsert into a map: the former entries stay, the first valid pair of each free key goes in, unless its node went in before, and nothing else; the other pairs come back in order, with what is in the way |
| BatchReads.HeldNodeComesBack | src/xnode/impl/xnode_impl.cpp:619-625 | In an array, a node that is there already comes back with the key of its slot |
| WriteEffects.WriteRearranges | src/xnode/impl/xnode_impl.cpp:302-318 | Any call that writes a container first, where it keeps the agreement: what its node holds is its child, displaced nodes have no parent, every other node has kept parent and name, and every other container is without exactly the nodes that have departed |
| WriteEffects.BulkSetMapEffect | src/xnode/impl/xnode_impl.cpp:513-587 | BulkSet of named pairs into a map, where it keeps the agreement: every accepted pair is read back, except that over a node nothing is left |
| WriteEffects.BulkSetArrayEffect | src/xnode/impl/xnode_impl.cpp:513-587 | BulkSet of indexed pairs into an array: every pair that does not stay behind is read back, every other slot as before, gained slots as empty; nodes have moved |
| WriteEffects.ForEachMapEffect | src/xnode/impl/xnode_impl.cpp:255-320 | The mutating ForEach of a map, where it keeps the agreement: what the caller wrote is read back, except that over a node nothing is left |
| WriteEffects.ForEachArrayEffect | src/xnode/impl/xnode_impl.cpp:255-320 | The mutating ForEach of an array, where it keeps the agreement: the slots are as the caller left them; nodes have moved |
| Agreement.AgreeMeans | src/xnode/functions/improper.cpp:20-30 | A held node has its holder as parent and, in a map, its key as name; a parent holds its child |
| Agreement.HeldAtOnePlace | src/xnode/impl/xnode_impl.cpp:928-945 | A node is held at one place overall |
| TreeAgreement.SetAgreesIff | src/xnode/impl/xnode_impl.cpp:322-351 | Set keeps the agreement exactly when it fails, stores a plain value, or (map) the child comes from elsewhere and its former map has no other entry under the new key, or (array) the position is not kIdxLast unless the array holds the node |
| Adoptions.InsertAgreesIff | src/xnode/impl/xnode_impl.cpp:353-381 | The exact condition for Insert; a failed Insert changes nothing |
| Adoptions.ParentSetAgreesIff | src/xnode/impl/xnode_impl.cpp:87-109 | The exact condition for ParentSet; a failed one changes nothing |
| Agreement.ParentDetachAgrees | src/xnode/impl/xnode_impl.cpp:111 | ParentDetach always keeps the agreement |
| KeyChanges.KeyChangeAgreesIff | src/xnode/impl/xnode_impl.cpp:163-190 | KeyChange keeps the agreement exactly when the container accepts the new key or the moved value is no node |
| Exchanges.CompareExchangeAgreesIff | src/xnode/impl/xnode_impl.cpp:449-490 | The exact condition for CompareExchange; a failed one changes nothing |
| Amends.AmendAgreesIff | src/xnode/impl/xnode_impl.cpp:398-447 | Append and Increment keep the agreement exactly when the entry they replace is no node and no node is started from |
| Amends.StartIsReadIff | src/xnode/impl/xnode_impl.cpp:398-447 | Under a key of a map that reads empty, the start value is read afterwards exactly when the key has no erased entry |
| Amends.NameSetAgreesIff | src/xnode/impl/xnode_impl.cpp:119-149 | A successful NameSet keeps the agreement exactly when it does not have a map rename its child to nothing |
| WriteAgreement.BulkSetAgreesIff | src/xnode/impl/xnode_impl.cpp:513-587 | BulkSet keeps the agreement exactly when, after the displaced nodes have been detached by their names, the container holds every node as it must and all nodes that leave a former parent take one of them out of it |
| WriteAgreement.ForEachAgreesIff | src/xnode/impl/xnode_impl.cpp:255-320 | The same condition for the mutating ForEach with any function of the caller |
| MapWrites.CutLeaves | src/xnode/impl/xnode_impl.cpp:579-580 | What is left of a written map once the displaced nodes are detached: an entry that held one of them is empty, every other one as written |
| MapWrites.MapWriteIff | src/xnode/impl/xnode_impl.cpp:513-587 | Any call that writes a map, if no child of it leaves an empty entry: the condition on the map as it was and as written |
| MapWrites.BareIsLost | src/xnode/impl/xnode_impl.cpp:799-819 | A child that is put under another key of its map, while its old entry is left empty, is found by the search instead and is lost |
| MapBatches.OverwritesIff | src/xnode/impl/xnode_impl.cpp:513-587 | Any call that writes each node at most once into a map: exactly when the agreement is kept, in terms of what is written under which key of the map as it was |
| MapBatches.DifferentLeaveIff | src/xnode/impl/xnode_impl.cpp:928-945 | Nodes from different parents leave exactly when no former parent has another entry under the new name |
| MapBatches.OverwritesSafeIff | src/xnode/impl/xnode_impl.cpp:513-587 | The exact condition on map, parents and names before the call, for nodes from different parents |
| MapCalls.BulkSetMapIff | src/xnode/impl/xnode_impl.cpp:513-587 | BulkSet of named pairs into a map: exactly when it keeps the agreement, in terms of the pairs and the state before |
| MapCalls.FreshBatchAgrees | src/xnode/impl/xnode_impl.cpp:513-587 | It does for nodes from elsewhere that go over no node, under names that their former parents do not use |
| MapCalls.OverwrittenNodeBreaks | src/xnode/impl/xnode_impl.cpp:513-587 | It never does when a node from elsewhere goes over a node |
| MapCalls.ForEachMapIff | src/xnode/impl/xnode_impl.cpp:255-320 | The mutating ForEach of a map with any function that writes no node twice: exactly when it keeps the agreement, in terms of what the function answers on the map as it was |
| ArrayWrites.ArrayWriteIff | src/xnode/impl/xnode_impl.cpp:302-318 | Any call that writes an array: exactly when every written node has one slot or none as it must, once the duplicates are taken out |
| ArrayWrites.OneSlotIff | src/xnode/impl/xnode_impl.cpp:322-351 | One node written into one slot: kept exactly when it is a child already, or the remembered key is the position just if it may become a child |
| ArrayWrites.ArrayFreshIff | src/xnode/impl/xnode_impl.cpp:302-318 | Nodes from elsewhere, each in one slot: exactly when every remembered key is the position of its slot |
| ArrayCalls.ForEachSlotIff | src/xnode/impl/xnode_impl.cpp:255-320 | A ForEach that writes one node over the first slot it is shown: exactly when the node is a child already, or it may become one just if the iteration began with the first slot |
| ArrayCalls.BulkSetSlotIff | src/xnode/impl/xnode_impl.cpp:513-587 | BulkSet of one node into an array: exactly when the node is a child already, or nothing is stored, or the key is an index; kIdxLast loses it |
| ArrayCalls.IndexedBatchAgrees | src/xnode/impl/xnode_impl.cpp:513-587 | A batch of indexed pairs of nodes from elsewhere always keeps the agreement, over nodes as well |
| ArrayCalls.ForEachArrayIff | src/xnode/impl/xnode_impl.cpp:255-320 | The mutating ForEach of an array with any function that writes nodes from elsewhere once: exactly when the number under which each was shown is the position of its slot in the end |
| ArrayCalls.ForEachFromFirstAgrees | src/xnode/impl/xnode_impl.cpp:255-320 | It does when it begins with the first slot and erases nothing |
| Writings.ByAddressAscends | src/xnode/impl/xnode_impl.cpp:585-586 | BulkSet adopts the nodes that it has put in in the order of their addresses |
| Settling.AdoptIff | src/xnode/impl/xnode_impl.cpp:928-945 | For any list of nodes adopted in turn: exactly when the tree agrees in the end |
| Settling.LeaveCount | src/xnode/impl/xnode_impl.cpp:928-945 | A former parent is left by all its nodes exactly when each of them, by its new name, takes out one of them |
| WriteAgreement.PlainBulkSetAgrees | src/xnode/impl/xnode_impl.cpp:513-587 | A batch of plain values always keeps the agreement |
| WriteAgreement.PlainForEachAgrees | src/xnode/impl/xnode_impl.cpp:255-320 | An iteration that erases and writes plain values always keeps the agreement |
| SingleWrites.BulkSetOneIff | src/xnode/impl/xnode_impl.cpp:513-587 | One node into a map: over another node only if it is a child of the map already, otherwise only if it comes from elsewhere and its former map has no other entry under the key |
| SingleWrites.ForEachOneIff | src/xnode/impl/xnode_impl.cpp:255-320 | The same for a mutating ForEach that writes one node, where one that is above the map may be written over a node as well |
| Releases.EraseKeyAgrees | src/xnode/impl/xnode_impl.cpp:383-396 | Erase always keeps the agreement |
| Releases.ClearAgrees | src/xnode/impl/xnode_impl.cpp:213-233 | Clear always keeps the agreement |
| Releases.BulkEraseAgrees | src/xnode/impl/xnode_impl.cpp:718-746 | BulkErase always keeps the agreement |
| BulkInserts.BulkInsertAgrees | src/xnode/impl/xnode_impl.cpp:589-652 | BulkInsert of pairs always keeps the agreement, whatever keys and values |
| ArrayInserts.BulkInsertAtAgrees | src/xnode/impl/xnode_impl.cpp:654-716 | BulkInsert at a position always keeps the agreement |
| TreeRuns.StepAgreesIff | src/xnode/impl/xnode_impl.cpp:87-853 | One call of any of these operations keeps the agreement exactly when it fails or meets the condition of its operation |
| TreeRuns.EverySafeRunAgrees | src/xnode/impl/xnode_impl.cpp:87-853 | Over every run of such calls from no nodes at all, containers, parents and names agree and the parents are a forest |
| TreeRuns.EveryRunKeepsForest | src/xnode/impl/xnode_impl.cpp:773-926 | In every state after any run, safe or not, successful or not, the parent pointers have no cycle |
| Moves.EveryMoveKeepsForest | src/xnode/impl/xnode_impl.cpp:773-819 | After any list of single steps, with any containers in between, the parent pointers have no cycle: whatever listeners veto, and however the steps of several calls are mixed |
| Moves.StepIsMoves | src/xnode/impl/xnode_impl.cpp:87-853 | Every call is made of such steps |
| FiniteTrees.EveryNodeHasATree | src/xnode/impl/xnode_impl.cpp:87-853 | After every safe run each node is the root of exactly one finite tree |
| Breakages.SetUnderUsedKeyBreaks | src/xnode/impl/xnode_impl.cpp:322-351 | A successful Set that breaks the agreement: the former map uses the new key for another node |
| Breakages.SetAtLastBreaks | src/xnode/impl/xnode_impl.cpp:322-351 | A successful Set at kIdxLast that breaks the agreement |
| Breakages.ParentSetOnNodeBreaks | src/xnode/impl/xnode_impl.cpp:87-109 | A successful ParentSet onto the name of another node that breaks the agreement |
| Breakages.KeyChangeToNothingBreaks | src/xnode/impl/xnode_impl.cpp:163-190 | A successful KeyChange to the empty key that breaks the agreement |
| Breakages.ExchangeOfNodeBreaks | src/xnode/impl/xnode_impl.cpp:449-490 | A successful CompareExchange of a node for a value that breaks the agreement |
| Breakages.SetAgainBreaks | src/xnode/impl/xnode_impl.cpp:322-351 | Set of a node into the map that holds it already: succeeds and breaks the agreement |
| Breakages.InsertUnderUsedKeyBreaks | src/xnode/impl/xnode_impl.cpp:353-381 | Insert of a node under a key that its former map uses for another: succeeds and breaks the agreement |
| Breakages.InsertAgainBreaks | src/xnode/impl/xnode_impl.cpp:353-381 | Insert of a node into the map that holds it already: succeeds and breaks the agreement |
| Breakages.ParentSetUnderUsedNameBreaks | src/xnode/impl/xnode_impl.cpp:87-109 | ParentSet with a name that the former parent uses for another node: succeeds and breaks the agreement |
| Breakages.KeyChangeToEndBreaks | src/xnode/impl/xnode_impl.cpp:163-190 | KeyChange of a node in an array to kIdxEnd: succeeds and breaks the agreement |
| Breakages.KeyChangeToPositionBreaks | src/xnode/impl/xnode_impl.cpp:163-190 | KeyChange of a node in a map to a position: succeeds and breaks the agreement |
| Breakages.KeyChangeFarBreaks | src/xnode/impl/xnode_impl.cpp:163-190 | KeyChange of a node in an array beyond its reach: succeeds and breaks the agreement |
| Breakages.ExchangeAgainBreaks | src/xnode/impl/xnode_impl.cpp:449-490 | CompareExchange that stores a node under a second key of its map: succeeds and breaks the agreement |
| Breakages.ExchangeUnderUsedKeyBreaks | src/xnode/impl/xnode_impl.cpp:449-490 | CompareExchange under a key that the former map uses for another node: succeeds and breaks the agreement |
| Breakages.ExchangeForParentBreaks | src/xnode/impl/xnode_impl.cpp:449-490 | CompareExchange that stores the parent of the node in it: succeeds and breaks the agreement |
| Breakages.ExchangeAtEndBreaks | src/xnode/impl/xnode_impl.cpp:449-490 | CompareExchange at kIdxEnd gives a node a parent that does not store it: succeeds and breaks the agreement |
| Breakages.ExchangeAtNoKeyBreaks | src/xnode/impl/xnode_impl.cpp:449-490 | The same at a key that a map cannot have: succeeds and breaks the agreement |
| Breakages.BulkSetOverNodeBreaks | src/xnode/impl/xnode_impl.cpp:513-587 | BulkSet of a node over another node loses the new entry: succeeds and breaks the agreement |
| Breakages.BulkSetUnderUsedKeyBreaks | src/xnode/impl/xnode_impl.cpp:513-587 | BulkSet of a node under a key that its former map uses for another: succeeds and breaks the agreement |
| Breakages.BulkSetAgainBreaks | src/xnode/impl/xnode_impl.cpp:513-587 | BulkSet of a node into the map that holds it already: succeeds and breaks the agreement |
| Breakages.ForEachOverNodeBreaks | src/xnode/impl/xnode_impl.cpp:255-320 | A mutating ForEach that writes a node over another node: succeeds and breaks the agreement |
| Breakages.ForEachUnderUsedKeyBreaks | src/xnode/impl/xnode_impl.cpp:255-320 | A mutating ForEach that writes a node under a key that its former map uses for another: succeeds and breaks the agreement |
| Breakages.ForEachOverParentBreaks | src/xnode/impl/xnode_impl.cpp:255-320 | A mutating ForEach that writes the parent of the node into it: succeeds and breaks the agreement |
| Breakages.ForEachAgainBreaks | src/xnode/impl/xnode_impl.cpp:255-320 | A mutating ForEach that writes a child of the map under a second key: succeeds and breaks the agreement |
| Breakages.BulkSetAtLastBreaks | src/xnode/impl/xnode_impl.cpp:513-587 | BulkSet of a node at kIdxLast of an array: succeeds and breaks the agreement |
| Breakages.ForEachBehindFirstBreaks | src/xnode/impl/xnode_impl.cpp:255-320 | A mutating ForEach of an array, begun behind the first slot, that writes a node: succeeds and breaks the agreement |
| Breakages.ForEachOfParentBreaks | src/xnode/impl/xnode_impl.cpp:255-320 | A mutating ForEach that writes the array into itself: succeeds and breaks the agreement |
| Breakages.ForEachBehindErasedBreaks | src/xnode/impl/xnode_impl.cpp:255-320 | A mutating ForEach that erases a slot of an array and writes a node over the next: succeeds and breaks the agreement |
| Breakages.AmendOverNodeBreaks | src/xnode/impl/xnode_impl.cpp:398-447 | Append or Increment at the key of a node: breaks the agreement |
| Breakages.AmendFromNodeBreaks | src/xnode/impl/xnode_impl.cpp:418-447 | Increment by a node at a missing key: breaks the agreement |
| Breakages.NameSetToNothingBreaks | src/xnode/impl/xnode_impl.cpp:119-149 | NameSet of a child of a map to the empty name, with the map to follow: succeeds and breaks the agreement |
| Breakages.BulkSetRunsPastItsEnd | src/xnode/impl/xnode_impl.cpp:513-587 | BulkSet reads past the end of its pairs when the last node got an entry before that is empty again |
| ArrayInserts.FillArraySplits | src/xnode/impl/xnode_impl.cpp:654-716 | Accepted and rejected values are the batch split, both in order: rejected are ancestors, nodes already present and repetitions |
| ArrayInserts.FillArrayAt | src/xnode/impl/xnode_impl.cpp:654-716 | At an ordinary position: old prefix, accepted values in order, old suffix |
| ArrayInserts.FillArrayEnd | src/xnode/impl/xnode_impl.cpp:654-716 | At kIdxEnd: the old content, then the accepted values in order |
| ArrayInserts.FillArrayLast | src/xnode/impl/xnode_impl.cpp:654-716 | At kIdxLast they go in before the last value; into an empty array the first of them becomes the last |
| ArrayInserts.SelectedCounts | src/xnode/impl/xnode_impl.cpp:654-716 | Accepted and rejected counts add up |
| ArrayInserts.AcceptedMove | src/xnode/impl/xnode_impl.cpp:654-716 | Every accepted node is a child of the array afterwards, and only there |
| ArrayInserts.BulkInsertAtReads | src/xnode/impl/xnode_impl.cpp:654-716 | What is read afterwards: the values that do not stay behind, in order and in one piece at the position, where none means the end; a name, or a map, is refused |
| NodeMethods.LastPlaceReads | src/xnode/impl/xnode_impl.cpp:654-716 | The key that is answered is that of the value that went in last |
| ArrayContainers.Container.DeqFind | src/xcontainer/impl/xcontainer_array.h:73-105 | Position of a key, with growth by empty slots up to 1000 behind the end |
| ArrayContainers.Container.Set | src/xcontainer/impl/xcontainer_array.cpp:81-115 | Stores, or refuses; slots gained by growth stay even if the listeners refuse |
| ArrayContainers.Container.Emplace | src/xcontainer/impl/xcontainer_array.cpp:117-137 | Inserts before the position or at the end |
| ArrayContainers.Container.Erase | src/xcontainer/impl/xcontainer_array.cpp:139-151 | Takes the slot out unless the listeners refuse |
| ArrayContainers.Container.ForEach | src/xcontainer/impl/xcontainer_array.cpp:36-70 | The iteration with erasure in place, slot by slot |
| ArrayContainers.WalkShows | src/xcontainer/impl/xcontainer_array.cpp:36-70 | Every slot up to the stop is shown once, in order and as it was; the rest is untouched |
| ArrayContainers.WalkTells | src/xcontainer/impl/xcontainer_array.cpp:45-62 | Whatever the listeners are asked is about a slot that is shown, with the value it had, but under the number after the one that is shown |
| ArrayContainers.ShownKeysArePositionsIff | src/xcontainer/impl/xcontainer_array.cpp:45-50 | The keys shown are the positions exactly when the iteration began with the first slot |
| ArrayContainers.RefusedWalkKeeps | src/xcontainer/impl/xcontainer_array.cpp:52-62 | Listeners that refuse everything keep the array as it is |
| TimedMaps.SetConsistent | src/xcontainer/impl/xcontainer_map_w_erase.cpp:80-92 | The erased counter is the number of erased entries after Set, whatever the listeners decide |
| TimedMaps.EmplaceConsistent | src/xcontainer/impl/xcontainer_map_w_erase.cpp:94-106 | The same for Emplace |
| TimedMaps.ForEachConsistent | src/xcontainer/impl/xcontainer_map_w_erase.cpp:41-78 | The same for the mutating iteration, whatever the caller and the listeners do |
| TimedMaps.EachShowsLive | src/xcontainer/impl/xcontainer_map_w_erase.cpp:41-78 | A caller that never stops is shown every live entry of the keys once, in order and as it was, whatever changes behind it |
| TimedMaps.ForEachShowsLive | src/xcontainer/impl/xcontainer_map_w_erase.cpp:41-78 | From a live key on, or from the beginning, every live entry is shown once, in key order and as it was; from a missing or erased key none |
| Visits.ForEachVisits | src/xnode/impl/xnode_impl.cpp:255-320 | The same for the mutating ForEach of a map node, and what the function makes of each entry is what is there in the end |
| TimedMaps.SizeCountsLive | src/xcontainer/impl/xcontainer_map_w_erase.cpp:6-12 | Size is the number of live entries |
| TimedMaps.SetOnLive | src/xcontainer/impl/xcontainer_map_w_erase.cpp:87-92 | Set acts on the live view as on a plain map |
| TimedMaps.SetAsOnPlainMap | src/xcontainer/impl/xcontainer_map.cpp:107-127 | Set of a solid value succeeds just as on a plain map |
| TimedMaps.EmplaceOnLive | src/xcontainer/impl/xcontainer_map.cpp:144-155 | Emplace succeeds only where there is no entry, live or erased, and answers the one that is there |
| TimedMaps.EraseOnLive | src/xcontainer/impl/xcontainer_map_w_erase.cpp:108-116 | Erase removes the key from the live view |
| TimedMaps.BoxesForgetTime | src/xcontainer/impl/xcontainer_map.cpp:85-155 | The containers of the tree operations are this one without its times |
| MapContainer.Container.DetectErase | src/xcontainer/impl/xcontainer_map_w_erase.cpp:124-139 | Counts inside the change callback, only if the change is allowed |
| MapContainer.Container.Set | src/xcontainer/impl/xcontainer_map_w_erase.cpp:87-92 | As specified, keeps the counter right |
| MapContainer.Container.Emplace | src/xcontainer/impl/xcontainer_map_w_erase.cpp:101-106 | As specified, keeps the counter right |
| MapContainer.Container.Erase | src/xcontainer/impl/xcontainer_map_w_erase.cpp:108-116 | As specified, keeps the counter right |
| MapContainer.Container.Clear | src/xcontainer/impl/xcontainer_map_w_erase.cpp:118-122 | Entries and counter are reset |
| MapContainer.Container.Size | src/xcontainer/impl/xcontainer_map_w_erase.cpp:8-12 | Answers the number of live entries |
| MapContainer.Container.ForEach | src/xcontainer/impl/xcontainer_map_w_erase.cpp:41-78 | As specified, entry by entry from the given key on, keeps the counter right |
| MapContainer.Container.KeyAt | src/xnode/impl/xcontainer_match_impl.cpp:23-52 | The key of a position, found by counting down live entries |
| NodeMaps.PositionalAccess | src/xnode/impl/xcontainer_match_impl.cpp:23-52 | Position i reads the i-th pair of all live pairs, kIdxLast the last, out of range is empty |
| NodeMaps.ResolvesAlike | src/xnode/impl/xcontainer_match_impl.cpp:23-52 | The tree operations resolve a key of a map just so: to the name, or to the key of the position |
| NodeMaps.StampIsGranted | include/xvalue/xvalue_rt.h:29-39 | The stamp of a new value is the time that an undisturbed call of the shared clock grants |
| NodeMaps.SetReads | src/xnode/impl/xnode_impl.cpp:322-351 | On the live view, with stamps and vetoes: when Set succeeds, and that the value is then live with the new stamp; an empty one takes the key out |
| NodeMaps.InsertReads | src/xnode/impl/xnode_impl.cpp:353-381 | The same for Insert, which needs a name without any entry, erased ones included |
| NodeMaps.EraseReads | src/xnode/impl/xnode_impl.cpp:383-396 | The same for Erase, which takes the key out of the live view |
| NodeMaps.KeyChangeReads | src/xnode/impl/xnode_impl.cpp:163-190 | When KeyChange succeeds; the live value is then under the new key with its old stamp, and lost under a key that a map cannot have |
| NodeMaps.BulkEraseByPosition | src/xnode/impl/xnode_impl.cpp:718-746 | Positions denote the entries they had before the call |
| Iterations.MapIterationForgetsTime | src/xnode/impl/xnode_impl.cpp:255-320 | The iteration of the tree operations is that of the map container, stamps aside |
| Iterations.ArrayIterationIsWalk | src/xnode/impl/xnode_impl.cpp:255-320 | The iteration of the tree operations is that of the array container |
| Iterations.ArrayFindsIff | src/xcontainer/impl/xcontainer_array.cpp:41-45 | An iteration of an array answers that it has found something exactly when it shows something |
| Callbacks.NodeCallbacks.OnChangeAdd | src/xnode/impl/xnode_callbacks.cpp:5-20 | A fresh id is larger than all in use |
| Callbacks.NodeCallbacks.DoCallbacks | src/xnode/impl/xnode_callbacks.cpp:36-79 | Answers false exactly when somebody vetoes; those asked before are rolled back, the expired removed |
| Callbacks.RoundTells | src/xnode/impl/xnode_callbacks.cpp:36-79 | After a round exactly those are gone that were asked and asked to be removed; the others have heard of the change if they were asked, and of its rollback if they allowed what was vetoed in the end |
| Callbacks.FaithfulHears | src/xnode/impl/xnode_callbacks.cpp:36-79 | What a listener that never vetoes is told in one round |
| NodeMaps.ListenersCopyIsRight | src/xnode/impl/xnode_callbacks.cpp:36-79 | Over every run, a listener that applies what it is told holds exactly the live entries, whatever others veto or expire |
| NodeMaps.VetoChangesNothing | src/xcontainer/impl/xcontainer_map.cpp:107-155 | An operation that changes entries or counter has put the change to the listeners first, and nobody has vetoed it |
| NodeMaps.ChangesAreExtracted | include/xvalue/xvalue_rt.h:58-65 | A live snapshot overlaid with the entries stamped later is the current live map, over every run of Set, Insert and Erase with any vetoes |
| NodeMaps.KeyChangeIsExtractedIff | src/xnode/impl/xnode_impl.cpp:163-190 | KeyChange is extracted exactly when the moved stamp is later than the snapshot |
| NodeMaps.InPlaceIsExtractedIff | include/xvalue/xtimed.h:27-70 | A change in place is extracted exactly when the old stamp is later than the snapshot |
| NodeMaps.KeyChangeIsMissed | src/xnode/impl/xnode_impl.cpp:163-190 | A live value moved right after the snapshot is not extracted |
| NodeMaps.InPlaceIsMissed | include/xvalue/xtimed.h:27-70 | A live value changed in place right after the snapshot is not extracted |
| MapNode.XMapNode.Set | src/xnode/impl/xnode_impl.cpp:322-351 | The operation of a map node on container, listeners and clock, as specified |
| MapNode.XMapNode.Insert | src/xnode/impl/xnode_impl.cpp:353-381 | The operation of a map node on container, listeners and clock, as specified |
| MapNode.XMapNode.Erase | src/xnode/impl/xnode_impl.cpp:383-396 | The operation of a map node on container, listeners and clock, as specified |
| MapNode.XMapNode.KeyChange | src/xnode/impl/xnode_impl.cpp:163-190 | The operation of a map node on container, listeners and clock, as specified |
| Clock.CallsAreUniqueAndOrdered | include/xvalue/xvalue_rt.h:29-39 | Under every interleaving: no value twice, later calls get larger values, each at least its argument, never the mark of an absent time |
| Clock.GrantsIncrease | include/xvalue/xvalue_rt.h:29-39 | Values are granted in increasing order |
| Clock.CounterNeverDecreases | include/xvalue/xvalue_rt.h:29-39 | The shared counter never decreases |
| Clock.FailureMeansProgress | include/xvalue/xvalue_rt.h:29-39 | An exchange fails exactly when another thread raised the counter since the read |
| Clock.UndisturbedCall | include/xvalue/xvalue_rt.h:29-39 | An undisturbed call answers the larger of its argument and the counter plus one |
| CreateOnce.AllGetTheSameNode | src/xnode/functions/insert_get.cpp:68-103 | Any number of interleaved threads get the same node, of the kind that is asked for, and at most one created node is ever stored; where nothing has to be created they get the node that is there if it suits, or nothing |
| CreateOnce.FailsAtMostOnce | src/xnode/functions/insert_get.cpp:76-103 | A thread fails at most one exchange |
| Json.JsonWriter.WriteXValue | src/xnode/json/xnode_json.cpp:115-146 | The events of a value; an unsigned integer wraps around to a signed one |
| Json.JsonWriter.WriteXNode | src/xnode/json/xnode_json.cpp:149-169 | The events of the whole tree under a node, at any depth |
| Json.XNodeJsonHandler.Consume | src/xnode/json/xnode_json.cpp:25-93 | One event on root, key and stack, with the nodes built in the tree |
| Json.XNodeJsonHandler.ConsumeAll | src/xnode/json/xnode_json.cpp:96-111 | Event after event until one is refused |
| Json.JsonRoundTrip | src/xnode/json/xnode_json.cpp:63-169 | Feeding back the events of any tree rebuilds it out of new nodes, ends with an empty stack and changes no old node; the root has the name that was asked for, every other new node that of its key; the content is the same exactly when no array slot is empty and no unsigned integer exceeds the signed range |
| Json.RefusedIff | src/xnode/json/xnode_json.cpp:25-93 | An event is refused exactly when it ends a node and none is begun, or brings a value into a map without a key or under one that is there; a key is good for one value or node |
| Json.RunNames | src/xnode/json/xnode_json.cpp:63-93 | Whatever events come: nodes that were there keep their names, and every node that a new map holds is named by its key, every node that a new array holds by nothing |
| JsonDocs.NodeIsDocument | src/xnode/json/xnode_json.cpp:149-169 | What is written for a node is one JSON document: keys and values alternate in objects, values stand in arrays, brackets match and nothing follows |
| JsonDocs.WrapsAround | src/xnode/json/xnode_json.cpp:128-130 | An unsigned integer is written as the signed one that is the same modulo 2^64 |
| Json.RunAgrees | src/xnode/json/xnode_json.cpp:63-93 | Whatever events come, parents, names and containers keep agreeing |
| XPaths.RoundTripIff | src/xkey/xpath.cpp:28-115 | Parsing the text of a path gives it back exactly when every string key is non-empty, has no closing brace (or only those), does not begin with a digit if printed in braces, and does not run into the delimiter with a colon |
| XPaths.SplitKey | src/xkey/xpath.cpp:53-99 | Every step consumes text, so parsing ends on every string |
| XPaths.Parse | src/xkey/xpath.cpp:101-115 | No empty key is ever yielded |
| XPaths.AddKeys | src/xkey/xpath.cpp:101-115 | The parsing loop |
| XPaths.ToString | src/xkey/xpath.cpp:28-51 | The printing loop |
| XPaths.PairVanishes | src/xkey/xpath.cpp:53-99 | Two keys of one colon in a row are swallowed |
| XPaths.DigitsAreCanonical | src/xkey/xpath.cpp:46 | An index is printed in decimal digits without a leading zero |
| XPaths.DigitsAreUnique | src/xkey/xpath.cpp:46 | A text of digits without a leading zero is what its number prints as |
| XPaths.PrintGrows | src/xkey/xpath.cpp:28-51 | What one more key adds: an index its digits in braces; a string itself, in braces exactly when a delimiter or a brace is in it, else behind a delimiter exactly when there is some text before |
| ParentsChecks.ParentsCheck | src/xnode/functions/improper.cpp:5-34 | Records exactly the nodes that a reachable holder holds without being their parent, on every containment graph, cyclic ones included |
| ParentsChecks.Search | src/xnode/functions/improper.cpp:5-34 | Terminates and is sound and complete for what it visits |
| FiniteTrees.AgreeingHasNothingImproper | src/xnode/functions/improper.cpp:5-34 | Where everything agrees there is nothing to record |
| Compares.CompareZeroIffMatches | src/xnode/functions/compare.cpp:7-79 | Without any bound: answers 0 exactly when kinds, keys and, recursively, values match |
| Compares.CompareZeroIffDeepEqual | src/xnode/functions/compare.cpp:7-79 | Answers 0 exactly on deeply equal trees, given no empty slots and values less than 2^31 apart |
| Compares.CompareSignFlips | src/xnode/functions/compare.cpp:7-79 | Swapping the arguments flips the sign, under the same bound |
| Compares.WalkOrders | src/xnode/functions/compare.cpp:26-63 | At the first difference the side comes first that has ended, that has the larger key, or that has the smaller value |
| Compares.CompareNodesOrders | src/xnode/functions/compare.cpp:7-79 | Maps come before arrays, and two nodes of one kind are in the order of their first difference |
| Compares.CompareNodesOrdersBelow | src/xnode/functions/compare.cpp:72-76 | Nodes that differ only below are in the order of the first nodes below them that differ |
| Compares.EmptySlotDiffers | src/xnode/functions/compare.cpp:21-25 | An array with an empty slot differs from every array of its length, itself included |
| Compares.CompareBoxes | src/xnode/functions/compare.cpp:7-79 | The comparison carried out on the containers, with deferred nodes |
| Compares.WalkBoxes | src/xnode/functions/compare.cpp:26-63 | One pass over both containers up to the first difference |
| Clones.Clone | src/xnode/functions/clone.cpp:6-71 | Terminates; a copy made of new nodes only; nothing that was there changes; agreement is kept; the copy has the given name, a node that it holds in an array has none |
| Clones.CopyIsDeepEqual | src/xnode/functions/clone.cpp:6-71 | A clone is deeply equal to its source |
| Clones.CloneComparesEqual | src/xnode/functions/clone.cpp:6-71 | A clone compares as 0 with its source when no array slot is empty, wherever the nodes lie |
| Clones.CloneComparesEqualIff | src/xnode/functions/clone.cpp:6-71 | Exactly then, for addresses less than 2^31 apart |
| TreePaths.SetThenAtIff | src/xnode/functions/path.cpp:50-74 | After a successful Set the const At answers the value exactly when no key is empty and the first node is a map |
| TreePaths.OtherPathsSame | src/xnode/functions/path.cpp:50-74 | Every path that neither begins nor continues the written one reads as before |
| TreePaths.SetSucceedsIff | src/xnode/functions/path.cpp:63-74 | Exactly when a Set succeeds |
| TreePaths.FailedSetIff | src/xnode/functions/path.cpp:63-74 | A failed Set changes nothing exactly when no node on the way was missing; otherwise its last key is empty |
| TreePaths.FailedSetReadsIff | src/xnode/functions/path.cpp:63-74 | A failed Set changes no read exactly when it has not attached a new node on the way |
| TreePaths.FailedSetCanChangeReads | src/xnode/functions/path.cpp:63-74 | The failed Set at ["a", ""] of an empty map changes the read at ["a"] |
| TreePaths.FailedSetCanLoseNode | src/xnode/functions/path.cpp:63-74 | The failed Set at ["", ""] of an empty map creates a node but changes no read |
| TreePaths.SetCanBeLost | src/xnode/functions/path.cpp:50-74 | The Set at ["", "a"] of an empty map succeeds and is not read there |
| TreePaths.ReadingCreates | src/xnode/functions/path.cpp:37-48 | The mutable At at ["a", "b"] of an empty map creates a node |
| TreePaths.MutableAtIff | src/xnode/functions/path.cpp:37-48 | The mutable At answers the same as the const one, and changes nothing exactly when no node on the way is missing |
| TreePaths.TouchesOnlyBelow | src/xnode/functions/path.cpp:63-74 | A write touches no container outside the subtree |
| TreePaths.ReadsOnlyBelow | src/xnode/functions/path.cpp:50-61 | A read depends on no container outside the subtree |
| TreePaths.PathSetAgrees | src/xnode/functions/path.cpp:63-74 | A write along a path from a map keeps the agreement |
| TreePaths.GetByKeyCreates | src/xnode/functions/insert_get.cpp:68-103 | What a missing node on the way becomes, attached or hanging in the air |
| TreePaths.NodeGetByKey | src/xnode/functions/insert_get.cpp:68-103 | As specified, on the nodes |
| TreePaths.GetNode | src/xnode/functions/path.cpp:7-26 | As specified, key after key |
| TreePaths.SetAtPath | src/xnode/functions/path.cpp:63-74 | As specified, on the nodes |
| TreePaths.ReadAtPath | src/xnode/functions/path.cpp:37-48 | As specified, on the nodes |
| TreePaths.PathConstAt | src/xnode/functions/path.cpp:28-61 | The reading loop |
| Patches.PatchDone | src/xnode/functions/compare.cpp:81-115 | After the patch every entry of it is equal in the target, or refused because it is a link to the target or above it or meets an array, recursively where both sides are nodes |
| Patches.PatchCoversIff | src/xnode/functions/compare.cpp:81-115 | The target has every live key of the patch with an equal value afterwards exactly when no entry that would be stored leads to its target node or above it, or meets an array |
| Patches.PatchBesideCovers | src/xnode/functions/compare.cpp:81-115 | In an agreeing state a patch that lies neither above nor below the target is covered exactly when no array of the target meets an entry of it |
| Patches.PatchFromAboveIsRefused | src/xnode/impl/xnode_impl.cpp:904-926 | A patch with its own target below it counts nothing and is not covered |
| Patches.PatchIdleIff | src/xnode/functions/compare.cpp:81-115 | A patch counts nothing exactly when every entry of it is equal in the target or refused, and then changes nothing |
| Changes.PatchChanges | src/xnode/functions/compare.cpp:81-115 | The count of a patch is the number of map entries, in the target and below it, that are different afterwards; no map loses a key |
| Patches.PatchTwice | src/xnode/functions/compare.cpp:81-115 | A second application changes nothing and counts nothing |
| Patches.PatchLeavesOthers | src/xnode/functions/compare.cpp:81-115 | Keys that the patch does not have and nodes outside the target subtree are untouched |
| Patches.PatchFramed | src/xnode/functions/compare.cpp:81-115 | Only containers of the target subtree are touched, the links stay in order |
| Patches.BesideIsAside | src/xnode/functions/compare.cpp:81-115 | In an agreeing state a patch that lies neither above nor below the target shares no container with it, so that the procedure may read it while the target changes |
| Patches.PlainSetIsSet | src/xnode/impl/xnode_impl.cpp:322-351 | What the patch stores as a plain value is what Set stores; an array takes nothing under a string key |
| Patches.ApplyPatch | src/xnode/functions/compare.cpp:81-115 | The procedure, reading the patch from its containers |
| Trees.TreeIsUnique | src/xnode/impl/xnode_impl.cpp:961-982 | What iteration shows below a node is one tree |

## Left out

- XML import and export: bound to a document library and a transcoder that are not part of this model.
- JSON text: tokenising and number formatting are the JSON library's; the model has the events on both sides, and lets a written integer come back by any of the integer callbacks.
- Const child links in the tree operations: comparison of values cannot tell them from owning ones when a node is searched; they occur as values in comparison, JSON writing and patches.
- Interleavings inside one tree operation, lock order and deadlock: each tree operation is one step.
- BulkSet calls that read past the end of their pairs: what they do is undefined, and the runs leave them out.
- Lifetime of nodes: shared and weak pointers are node identities and optional parents.
- Doubles are an ordered type without NaN; conversions between strings and numbers are not modelled.
- Overflow of the 64-bit clock counter.
- Numbers in paths above the range of int, for which the library function is undefined, are an arbitrary function of the text.
- Factories, name getters and the private renaming: they only create, read or set what is modelled.
- What Append and Increment make of an entry: the conversions and sums are a parameter that gives plain values.
- NodeMethods.Nodes.InvalidChildren: the bulk operations keep the refused nodes by identity, because addresses are taken to be less than 2^31 units apart there; the source orders them by the comparison that truncates to 32 bits.
- WriteEffects.BulkSetArrayEffect: is stated for different indices and nodes from elsewhere; a node that a batch writes twice, or puts in and displaces again, is covered by `WriteRearranges` only.
- CopyTo, ParentsFix and EmplaceToArray, whose code does not do what their headers say.
- Compare without unwrapping of nodes, and comparison, cloning and parents check with a callback.
- The erasure branch of patches, which no live map entry reaches.
- Patches.ApplyPatch: is stated for patches that lie apart from the target, because a patch that is read while it changes is not modelled, and for patches whose nodes that are met are maps.
- Patches.PatchCoversIff: arrays in a patch are stored as links; an array that meets a node of the target is not modelled, because it addresses the target by positions that move while it is applied.
- ParentsChecks.ParentsCheck: keeps its record by the identity of nodes, because addresses are taken to be less than 2^31 units apart there; the source keys it by the comparison that truncates to 32 bits.
- ParentsChecks.Search: the same.
- XPaths.RoundTripIff: is stated for indices that fit in an int, because larger ones go through an undefined conversion.
- TreePaths.SetThenAtIff: is stated for values that are no nodes; a node is set along a path by the last container's Set, which `Effects` describes.
