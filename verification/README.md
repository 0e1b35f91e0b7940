# CHEM in Dafny

A Dafny 4.11 model of the parts of CHEM that carry state, protocols and transformations, with proofs of
what they promise. `dafny verify dfyconfig.toml` checks everything.

Two groups of code are modelled.

**The JSON document engine** that CHEM's live configuration goes through.

| file | content |
|---|---|
| `Outcomes.dfy`, `KeyOrder.dfy`, `JsonValue.dfy` | exceptions as results, the visiting order of `std::map`, documents |
| `Splitting.dfy`, `Escaping.dfy`, `JsonPointer.dfy` | JSON Pointer (RFC 6901): substitution loops, printing, parsing, array indices |
| `PointerResolution.dfy` | `get_checked`, `contains`, writing through a resolved reference |
| `JsonPatch.dfy`, `JsonDiff.dfy`, `PatchLaws.dfy` | JSON Patch (RFC 6902): applying, diffing, laws |
| `Flattening.dfy`, `Unflattening.dfy`, `FlattenRoundTrip.dfy` | `flatten`, `unflatten`, when one undoes the other |
| `MergePatch.dfy`, `ConfigEdit.dfy` | JSON Merge Patch (RFC 7396) and the dotted-key config edit built on it |
| `OrderedMap.dfy` | the insertion-ordered map |
| `Destruction.dfy`, `DestructionPlaces.dfy` | the stack-based destructor, and the places of the nodes it takes |

**CHEM's own stateful code.**

| file | content |
|---|---|
| `SionnaSync.dfy`, `SionnaClient.dfy` | registration protocol, position cache, channel updates of the Sionna extension |
| `SionnaRegistration.dfy` | what failed requests do to registrations and positions, over whole runs |
| `SionnaStop.dfy` | the stop/join handshake, as interleaved steps of two threads |
| `CirTaps.dfy`, `Rounding.dfy` | binning delays into FIR taps, ways of rounding |
| `PoolInterleaving.dfy`, `BufferPool.dfy` | the buffer pool under any interleaving, and as one thread sees it |
| `AntennaGrid.dfy`, `AntennaCells.dfy`, `AntennaSlots.dfy` | building the gain grid, which entry is in which cell |
| `AntennaLookup.dfy`, `AntennaWitnesses.dfy` | the emitted lookup, patterns on which it or the grid goes wrong |
| `NodeConfigs.dfy`, `NodeDecoding.dfy` | the node configuration's JSON encoder and decoder, as a pair and field by field |

Conventions. Documents have one exact number kind, `real`; floats elsewhere are `real` too. Operations that
throw return a `Result`, with the exception class and its number. `Representable(doc)` says that no array is
longer than `std::size_t` can count; every document in memory satisfies it, and it is what makes every index
of an array printable and parseable. A reference into a document is held as the path that leads to it.
Where C++ leaves an evaluation order open (`test` with a missing value), the model takes left to right.

## What the proofs found

- `unflatten(flatten(v))` gives `v` with empty containers replaced by null **if and only if** no object in `v`
  has its member `"0"` visited first (`UnflattenFlatten`); `{"0": null}` comes back as `[null]`
  (`ZeroKeyFails`).
- `json_pointer::contains` throws on the empty token, and on an index too large for `std::size_t`, when it
  meets an array; its comment announces only errors 106 and 109, but 404 and 410 are the ones it throws
  (`Contains`, `EmptyTokenTrips`, `LargestTrips`).
- A patch `remove` below a number, string, boolean or null succeeds and does nothing (`RemoveSucceeds`,
  `RemoveBelowNumber`), where section 4.2 of RFC 6902 demands an error. An `add` trips an assertion exactly below
  an existing number, string or boolean (`AddSucceeds`, `AddBelowNumber`), against the comment that a parent cannot
  be primitive; with assertions compiled out it would do nothing.
- An in-place `move` throws and loses its value **if and only if** there is a value to take and the document
  without it does not admit it at the destination (`MoveLosesValue`, `MoveLoses`); no other operation leaves a
  changed document behind when it throws (`Document.Perform`).
- The position cache is updated even when a registration request failed. A node is registered **if and only if**
  some synchronisation saw it elsewhere than before and got its request through (`RegisteredIff`), so after a
  failure the registration waits for the node to move (`FailedRegistrationStays`, `FailureReached`).
- A dotted-key edit works for every value **if and only if** no name on the path contains a dot
  (`EditWorksIffDotFree`, `DottedNameMisses`).
- The tolerance of the antenna grid adds up along an axis. With a step of more than twice the axis size in
  tolerances, as in every pattern under `data/antenna`, cells are written once **if and only if** the entries are
  separated by more than the tolerance (`EachCellOnce`). With smaller steps separated entries can overwrite each
  other (`DriftClashes`); they do not **if and only if** every angle rounds to the number of the distinct value it
  was merged into (`OnceIffRoundsHome`).
- The emitted antenna lookup reads the cell an entry was written to **if and only if** its phi is less than one
  turn above the smallest (for steps of more than a turn see `OwnTurn`) and neither angle is an even tie, a value
  halfway above an even grid index, which Python's `round` takes down and `std::llround` up; theta may be one beyond
  the last row (`LookupReadsIff`). A pattern that lists both 0 and a full turn reads the first column twice
  (`FullTurnMisses`), and one with a tie reads another entry's gain (`TieMisses`). The patterns under `data/antenna`
  have steps well above the tolerances, where ties do not occur (`LookupAgrees`).
- While no new acquisition starts, batches in progress are safe from failure **if and only if** the queue holds what
  they still miss together (`NeverFailsIff`), so two concurrent batches can both fail where
  either alone returns (`BothBatchesFail`).
- Decoding a node configuration into an object that is used again keeps stale values, **unless** the encoding
  carries every optional part (`DecodeForgetsIff`, `StaleValuesStay`).

## Model

| member | source | states |
|---|---|---|
| Escaping.ReplaceSubstring | include/nlohmann/detail/string_escape.hpp:31-40 | the in-place loop that resumes after the inserted text terminates and equals one left-to-right pass over leftmost occurrences, although "~" is replaced by text containing "~" |
| Escaping.EscapeToken | include/nlohmann/detail/string_escape.hpp:50-55 | the two substitution loops compute `Escape` |
| Escaping.UnescapeToken | include/nlohmann/detail/string_escape.hpp:65-69 | the two substitution loops compute `Unescape` |
| Escaping.EscapeIsEncode | include/nlohmann/detail/string_escape.hpp:50-55 | for every string, the two sequential substitutions encode each character exactly once |
| Escaping.UnescapeIsDecode | include/nlohmann/detail/string_escape.hpp:65-69 | for every string, well escaped or not, the two sequential substitutions equal one simultaneous decoding |
| Escaping.ReservedCharacters | include/nlohmann/detail/string_escape.hpp:50-69 | "~" is written "~0" and "/" is written "~1", and "~01" is read as "~1" (section 4 of RFC 6901) |
| JsonPointer.Print | include/nlohmann/detail/json_pointer.hpp:68-76 | the fold over escaped tokens computes `ToString` |
| JsonPointer.Split | include/nlohmann/detail/json_pointer.hpp:666-724 | the start/slash loop with its escape check computes `Parse`, including errors 107 and 108 |
| JsonPointer.ParsePrint | include/nlohmann/detail/json_pointer.hpp:68-76 | parsing the printed form gives back every token sequence |
| JsonPointer.PrintParse | include/nlohmann/detail/json_pointer.hpp:666-724 | printing the parsed form gives back every string the parser accepts |
| JsonPointer.PrintInjective | include/nlohmann/detail/json_pointer.hpp:68-76 | distinct pointers print differently, so distinct leaves get distinct keys |
| JsonPointer.ParseErrors | include/nlohmann/detail/json_pointer.hpp:675-716 | error 107 exactly without a leading slash, error 108 exactly for a "~" that is not followed by "0" or "1", and no other |
| JsonPointer.IndexOfDigits | include/nlohmann/detail/json_pointer.hpp:214-249 | the printed form of every index below the largest `size_t` parses to that index |
| JsonPointer.DigitsOfIndex | include/nlohmann/detail/json_pointer.hpp:214-249 | no other token is accepted for that index |
| JsonPointer.IndexErrors | include/nlohmann/detail/json_pointer.hpp:214-249 | errors 106, 109 and 404 for leading zeros, other first characters, and later characters that are no digits |
| JsonPointer.LargeIndexErrors | include/nlohmann/detail/json_pointer.hpp:231-246 | error 410 for 18446744073709551615 and error 404 for every larger number |
| JsonPointer.TenAndMore | include/nlohmann/json.hpp:4980-4997 | printed indices are decimal |
| PointerResolution.GetChecked | include/nlohmann/detail/json_pointer.hpp:529-568 | the moving-pointer loop resolves a pointer with errors 401, 402, 403, 404 and those of `array_index` |
| PointerResolution.Contains | include/nlohmann/detail/json_pointer.hpp:578-655 | true exactly when `get_checked` succeeds; throws exactly when the walk meets an array with the empty token or an index `size_t` cannot hold, and then only error 404 or 410 |
| PointerResolution.LooksLikeIndex | include/nlohmann/detail/json_pointer.hpp:597-628 | the character checks on an array token accept exactly digit strings without a leading zero, and the empty token |
| PointerResolution.EmptyTokenTrips | include/nlohmann/detail/json_pointer.hpp:578-655 | for every array, the empty token throws, with error 404 |
| PointerResolution.LargestTrips | include/nlohmann/detail/json_pointer.hpp:214-249 | for every array, the largest `size_t` throws, with error 410 |
| PointerResolution.AtSet | include/nlohmann/detail/json_pointer.hpp:422-461 | below a place that was assigned through its reference one sees the assigned value |
| PointerResolution.SetFrame | include/nlohmann/detail/json_pointer.hpp:422-461 | places that diverge from the assigned one are unaffected |
| PointerResolution.ResolveErrors | include/nlohmann/detail/json_pointer.hpp:529-568 | at the first missing place: error 403 for a member, 402 for "-", 401 beyond an array, 404 below a primitive, else that of the index |
| JsonPatch.Document.AddValue | include/nlohmann/json.hpp:4705-4770 | the in-place addition: its result or its exception, and after an exception the document as it was |
| JsonPatch.Document.RemoveValue | include/nlohmann/json.hpp:4773-4799 | the in-place removal: its result or its exception, and after an exception the document as it was |
| JsonPatch.Document.ReplaceValue | include/nlohmann/json.hpp:4864-4869 | the in-place replacement of an existing value; after an exception the document is as it was |
| JsonPatch.Document.MoveValue | include/nlohmann/json.hpp:4871-4886 | removal, then addition: after an exception of the second, the first stays done |
| JsonPatch.Document.CopyValue | include/nlohmann/json.hpp:4888-4901 | the addition of the value found at the source; after an exception the document is as it was |
| JsonPatch.Document.TestValue | include/nlohmann/json.hpp:4903-4924 | the comparison, with resolution errors other than out-of-range passed on; changes nothing |
| JsonPatch.Document.Perform | include/nlohmann/json.hpp:4807-4934 | one operation: an exception that leaves a changed document behind comes from a move |
| JsonPatch.Document.PatchInPlace | include/nlohmann/json.hpp:4668-4935 | the document after the operations up to the first that throws, and that exception |
| JsonPatch.Patch | include/nlohmann/json.hpp:4939-4944 | the patched copy, or the exception with the original untouched |
| JsonPatch.ApplyConcat | include/nlohmann/json.hpp:4807-4934 | applying a concatenation is applying one part after the other, unless the first throws |
| JsonPatch.AddAt | include/nlohmann/json.hpp:4705-4770 | adding below an existing place changes exactly that place, by `AddChild` of its value |
| JsonDiff.Diff | include/nlohmann/json.hpp:4949-5079 | the recursive loops build the patch `DiffOps`; for the root path, applying it to the source yields the target |
| JsonDiff.RemoveRest | include/nlohmann/json.hpp:4992-5001 | each removal is put in front of the earlier ones, giving descending indices |
| JsonDiff.DiffEdits | include/nlohmann/json.hpp:4949-5079 | in every document that holds the source at a place, the patch for that place puts the target there, changes nothing else and never throws |
| JsonDiff.DiffPatchRoundTrip | include/nlohmann/json.hpp:4949-5079 | patching the source with its difference to the target never throws and yields the target |
| JsonDiff.DiffEmptyIffEqual | include/nlohmann/json.hpp:4956-4960 | the difference is empty exactly when the documents are equal |
| PatchLaws.RemoveUndoesAdd | include/nlohmann/json.hpp:4705-4799 | removing where a value was added restores the document exactly when nothing was overwritten, no null became an object and the token was not "-" |
| PatchLaws.AddUndoesRemove | include/nlohmann/json.hpp:4705-4799 | adding a removed value back at its pointer restores the document |
| PatchLaws.MoveOntoItself | include/nlohmann/json.hpp:4871-4886 | moving a value onto its own path is the identity, except that the root cannot be moved |
| PatchLaws.AddSucceeds | include/nlohmann/json.hpp:4705-4770 | an addition succeeds exactly when the parent resolves and is null, an object, or an array with the append token or an index up to its size; it trips the assertion exactly below an existing boolean, number or string |
| PatchLaws.AddBelowNumber | include/nlohmann/json.hpp:4757-4768 | a concrete document on which an addition trips the assertion |
| PatchLaws.MoveLosesValue | include/nlohmann/json.hpp:4871-4886 | a move throws and leaves a changed document exactly when there is a value below the root to take and the document without it does not admit an addition at the destination |
| PatchLaws.MoveLoses | include/nlohmann/json.hpp:4871-4886 | a concrete move that loses its value |
| PatchLaws.RemoveSucceeds | include/nlohmann/json.hpp:4773-4799 | a removal succeeds exactly where the target exists or its parent is no container, and then changes nothing in the latter case |
| PatchLaws.RemoveBelowNumber | include/nlohmann/json.hpp:4794-4798 | a concrete document on which removing a missing target succeeds |
| PatchLaws.AddedIsThere | include/nlohmann/json.hpp:4705-4770 | after an addition the pointer resolves to the value, exactly unless it was the append token on an array |
| PatchLaws.TestIff | include/nlohmann/json.hpp:4903-4924 | a test succeeds exactly when the pointer resolves to an equal value, and never changes the document |
| PatchLaws.AddResult | include/nlohmann/json.hpp:4850-4854 | an add succeeds exactly where the document admits it, and then sets that member or inserts at that index and changes nothing else |
| PatchLaws.ReplaceResult | include/nlohmann/json.hpp:4864-4869 | a replace succeeds exactly where there is a value, and puts the new one in its place |
| PatchLaws.CopyResult | include/nlohmann/json.hpp:4888-4901 | a copy succeeds exactly when its source resolves and the document admits an addition at its destination, and then adds the source's value there and changes nothing else |
| PatchLaws.CopiedIsThere | include/nlohmann/json.hpp:4888-4901 | after a copy the destination resolves to what the source held, exactly unless it was appended with "-" |
| PatchLaws.MoveResult | include/nlohmann/json.hpp:4871-4886 | a move succeeds exactly when there is a value below the root to take and the rest admits it at the destination, and then is that removal followed by that addition, with nothing else changed |
| PatchLaws.MovedIsThere | include/nlohmann/json.hpp:4871-4886 | after a move the destination resolves to what the source held, exactly unless it was appended with "-" |
| PatchLaws.MalformedOperation | include/nlohmann/json.hpp:4810-4848 | error 104 for an operation that is no object, 105 without an operation name or path or with an unknown name, 107 or 108 for a malformed path |
| PatchLaws.MissingMember | include/nlohmann/json.hpp:4810-4835 | error 105 for an add or replace without a value and for a move or copy without a source |
| PatchLaws.MalformedPatch | include/nlohmann/json.hpp:4801-4805 | error 104 for a patch that is no array |
| PatchLaws.RemoveErrors | include/nlohmann/json.hpp:4773-4799 | error 405 at the root, 403 for a missing member, 401 beyond an array, else what resolving the parent or the index throws |
| PatchLaws.TestFails | include/nlohmann/json.hpp:4903-4924 | error 501 for a test that does not hold, but a malformed index passes its own error on |
| Flattening.FlattenInto | include/nlohmann/detail/json_pointer.hpp:735-793 | the recursive loops add exactly the members of the document's leaves below the reference string |
| Flattening.Flatten | include/nlohmann/json.hpp:4643-4648 | the flattened object is `Flat` |
| Flattening.FlatResolves | include/nlohmann/detail/json_pointer.hpp:735-793 | a key is in the flattened object exactly when it parses to the pointer of a primitive or an empty container, and its value is that primitive, or null for the container |
| Unflattening.Unflatten | include/nlohmann/detail/json_pointer.hpp:805-832 | the loop over the members in key order, with errors 313, 314, 315 and those of the pointer |
| Unflattening.GetAndCreate | include/nlohmann/detail/json_pointer.hpp:274-332 | the moving pointer that opens nulls, objects and arrays on its way, with the assignment through it, is the recursive creation of a value at a pointer |
| Unflattening.BuildArray | include/nlohmann/detail/json_pointer.hpp:274-332 | creating entries below an array builds each element from its own entries, in whatever order the indices come and although gaps are filled with null |
| Unflattening.BuildObject | include/nlohmann/detail/json_pointer.hpp:274-332 | creating entries below an object builds each member from its own entries, independently |
| Unflattening.UnflattenErrors | include/nlohmann/detail/json_pointer.hpp:805-829 | error 314 for a value that is no object, 315 at a member that is no primitive, and the pointer's error at a malformed key |
| Unflattening.CreateBelowPrimitive | include/nlohmann/detail/json_pointer.hpp:312-326 | error 313 below an existing boolean, number or string, at any depth |
| FlattenRoundTrip.SubVisits | include/nlohmann/detail/json_pointer.hpp:816-829 | the entries below a child come in that child's own visiting order |
| FlattenRoundTrip.ZeroHead | include/nlohmann/detail/json_pointer.hpp:285-297 | the first visited token of an object is "0" exactly when its member "0" precedes all others by escaped name |
| FlattenRoundTrip.ZeroIndexHead | include/nlohmann/detail/json_pointer.hpp:285-297 | the first visited token of an array is always "0", although "/10" comes before "/2" |
| FlattenRoundTrip.UnflattenFlatten | include/nlohmann/detail/json_pointer.hpp:735-832 | the round trip gives the pruned document if and only if no object anywhere has its member "0" visited first |
| FlattenRoundTrip.PrunedAt | include/nlohmann/detail/json_pointer.hpp:742-786 | what the pruned document is at every pointer: the same primitive, null for an empty container, and a container with the same keys or length otherwise |
| FlattenRoundTrip.UnflattenFlattenNoZero | include/nlohmann/detail/json_pointer.hpp:735-832 | in particular when no object has a member named "0" |
| FlattenRoundTrip.ZeroKeyFails | include/nlohmann/detail/json_pointer.hpp:285-297 | the smallest failing documents: an object whose only member is "0", with a primitive value, comes back as an array of that value |
| MergePatch.MergeInto | include/nlohmann/json.hpp:5091-5115 | the loop of erasures and recursive merges computes the definition in section 2 of RFC 7396 |
| MergePatch.MergeNamed | include/nlohmann/json.hpp:5091-5115 | at every depth, a member the patch sets to null is absent and any other named member holds the merge of old and new |
| MergePatch.MergeUnnamed | include/nlohmann/json.hpp:5091-5115 | at every path the patch does not name, nothing changes |
| MergePatch.MergeSets | include/nlohmann/json.hpp:5091-5115 | whatever the target, a patch value that is neither object nor null is there afterwards with nothing below it, at every depth, and where the patch has an object there is one |
| MergePatch.MergeIdempotent | include/nlohmann/json.hpp:5091-5115 | applying the same patch twice equals applying it once |
| ConfigEdit.Config.MergePatch | src/chem/config.cpp:82-84 | the configuration becomes the merge of itself and the patch |
| ConfigEdit.ListScalars | utils/pychem.py:217-227 | the recursive listing of dotted keys |
| ConfigEdit.FlattenNamesLeaves | utils/pychem.py:217-227 | the listing names each scalar by its path |
| ConfigEdit.ScalarListed | utils/pychem.py:217-227 | every scalar below objects only is listed |
| ConfigEdit.LeafPaths | utils/pychem.py:217-227 | every listed path leads to its scalar |
| ConfigEdit.LeavesDistinct | utils/pychem.py:217-227 | no scalar is listed twice |
| ConfigEdit.ListedOnce | utils/pychem.py:217-227 | without dots in names, no dotted key is listed twice |
| ConfigEdit.BuildPatch | utils/pychem.py:1764-1769 | the walk that fills nested objects builds one object per part with the value innermost |
| ConfigEdit.EditChangesOneKey | utils/pychem.py:1764-1769 | without dots in names, merging the built patch replaces that one scalar and the new listing differs in that key's value only, with the same keys in the same order |
| ConfigEdit.EditWorksIffDotFree | utils/pychem.py:1764-1769 | for one scalar, the edit works for every new value exactly when no name on its path contains a dot |
| ConfigEdit.DottedNameMisses | utils/pychem.py:1764-1769 | for every name of two dotted parts, the edit leaves its member alone and adds another |
| OrderedMap.OrderedMap.Find | include/nlohmann/ordered_map.hpp:286-296 | the first position with the key, or the end |
| OrderedMap.OrderedMap.Emplace | include/nlohmann/ordered_map.hpp:54-65 | appends only if the key is new, and gives the key's position |
| OrderedMap.OrderedMap.Assign | include/nlohmann/ordered_map.hpp:82-90 | assignment through the returned reference replaces the value in place, or appends the pair |
| OrderedMap.OrderedMap.EraseKey | include/nlohmann/ordered_map.hpp:162-179 | the shifting loop cuts out exactly the pair of that key |
| OrderedMap.OrderedMap.EraseRange | include/nlohmann/ordered_map.hpp:207-258 | the shifting loop cuts the slice and returns the position of the first pair after it |
| OrderedMap.RunRefines | include/nlohmann/ordered_map.hpp:54-258 | after any run of insertions, assignments and both erasures from empty, keys are unique and the vector is the map together with the order in which its keys were inserted |
| Destruction.Destroy | include/nlohmann/json.hpp:554-603 | the work-stack loop terminates, takes every node below the value off the stack exactly once, and each is destructed without children |
| Destruction.ReachableIsTaken | include/nlohmann/json.hpp:554-603 | whatever a pointer can reach is among those nodes |
| DestructionPlaces.OnePointerEach | include/nlohmann/json.hpp:554-603 | the nodes in the order they are taken correspond one to one to the pointers that resolve in the document |
| SionnaClient.SionnaExtension.EnsureScene | extensions/sionna/src/sionna_client.cpp:460-464 | the scene loop creates a scene exactly while there is none |
| SionnaClient.SionnaExtension.SyncPositions | extensions/sionna/src/sionna_client.cpp:483-588 | the loop over the nodes takes the fields and the server's scene through one `Sync` step |
| SionnaClient.SionnaExtension.SyncOne | extensions/sionna/src/sionna_client.cpp:489-586 | one node: cache check, TX request, RX request, cache update |
| SionnaClient.SionnaExtension.Clear | extensions/sionna/src/sionna_client.cpp:97-112 | stopping forgets everything |
| SionnaClient.SionnaExtension.ApplyCir | extensions/sionna/src/sionna_client.cpp:667-743 | the reverse lookups and nested loops make the updates `AllUpdates` |
| SionnaSync.OrdersAlwaysMatch | extensions/sionna/src/sionna_client.cpp:483-588 | after every run, whatever requests fail and whatever the nodes are called, the client's TX and RX orders are the server's lists |
| SionnaSync.AlwaysAligned | extensions/sionna/src/sionna_client.cpp:483-588 | if no two nodes share a name, after every event the lists are also without repetitions, and each name is owned by one node |
| SionnaSync.AllNamesDistinct | extensions/sionna/src/sionna_client.cpp:526-528 | over both lists together no two devices share a name |
| SionnaClient.UpdatesUseOwnIndices | extensions/sionna/src/sionna_client.cpp:667-743 | in every reachable state, each update uses the data at exactly the indices of its transmitter and receiver, within the answer's shape and with at least one path, is never a self-link, and no link is updated twice |
| SionnaClient.CoveredLinksUpdated | extensions/sionna/src/sionna_client.cpp:675-743 | conversely, every link between different registered nodes that the answer covers is updated |
| SionnaSync.CacheRefinesAlwaysSend | extensions/sionna/src/sionna_client.cpp:489-586 | on runs without failed requests and with a fixed reference altitude, the caching client and one that always sends are in the same state, the server's included, after every event and across restarts |
| SionnaSync.LocatedNodesCurrent | extensions/sionna/src/sionna_client.cpp:489-586 | on such runs, after each synchronisation both devices of every located node exist and have its latitude and longitude, and exceed its altitude by the reference altitude |
| SionnaSync.DeviceNames | extensions/sionna/src/sionna_client.cpp:503-528 | each device is called after a name its node had in some synchronisation, or after the node's id where that was empty, followed by "-tx" or "-rx" |
| SionnaRegistration.RegisteredIff | extensions/sionna/src/sionna_client.cpp:495-586 | over every run and for both directions, a device is registered exactly when, since the last stop, some synchronisation saw its node elsewhere than the one before and got its request through |
| SionnaRegistration.FailedRegistrationStays | extensions/sionna/src/sionna_client.cpp:495-586 | after a failed TX or RX registration the node is not registered in that direction after any later event, as long as there is no stop and the node stays where it is |
| SionnaRegistration.FailureReached | extensions/sionna/src/sionna_client.cpp:495-586 | a run of three events that leaves a node a receiver without a transmitter, where a client without the cache registers both |
| SionnaRegistration.CurrentIff | extensions/sionna/src/sionna_client.cpp:495-586 | at every synchronisation of every run, a transmitter or receiver is where its node is afterwards exactly when it was there before, or the node is seen at a new position and the request goes through |
| SionnaStop.NoMarkAfterStop | extensions/sionna/src/sionna_client.cpp:97-112 | in every interleaving, between the return of `onStop` and the next `onStart` no channel carries the mark and no poll thread is left |
| SionnaStop.OtherMarksStay | extensions/sionna/src/sionna_client.cpp:254-264 | in every interleaving, starting and stopping leave every other extension's mark as it was |
| SionnaStop.NeverStuck | extensions/sionna/src/sionna_client.cpp:458-479 | while `onStop` waits at its join, the join can return or the poll thread has a step to take |
| SionnaStop.WorkerEnds | extensions/sionna/src/sionna_client.cpp:458-479 | in every interleaving, while `onStop` waits, the poll thread takes at most as many steps as its state at the beginning allows, marks included, and after that many the join can return |
| CirTaps.TapIndexIff | extensions/sionna/src/sionna_client.cpp:373-374 | a path's tap is k exactly when its delay times the rate is at least k - 0.5 and less than k + 0.5 |
| Rounding.RoundMeaning | extensions/sionna/src/sionna_client.cpp:373-374 | `std::round`: the nearest whole number, halves away from zero |
| CirTaps.CirToTaps | extensions/sionna/src/sionna_client.cpp:364-390 | the real and imaginary parts of tap k are the sums over the kept paths whose delay times the rate rounds to k; there are taps up to the last that a kept path rounds to, and at least one |
| CirTaps.Accumulate | extensions/sionna/src/sionna_client.cpp:380-387 | the second pass computes those sums over delays, gains and rate; its size guard never rejects |
| CirTaps.TapCount | extensions/sionna/src/sionna_client.cpp:371-378 | the length is one more than the largest kept index, one if there is none, and within the configured limit |
| CirTaps.TapsConserveGain | extensions/sionna/src/sionna_client.cpp:380-387 | the taps add up to the kept gains |
| CirTaps.PathOrderIrrelevant | extensions/sionna/src/sionna_client.cpp:364-390 | permuting the paths does not change the taps |
| PoolInterleaving.BuffersPartitioned | include/chem/models/data_pool.hpp:109-147 | in every state of every interleaving, queue, batches in progress and buffers in hand together hold each original buffer exactly once |
| PoolInterleaving.BatchAllOrNothing | include/chem/models/data_pool.hpp:118-135 | a batch acquisition that throws leaves its thread with what it held before; one that returns adds exactly the requested number |
| PoolInterleaving.AcquiredIsZero | include/chem/models/data_pool.hpp:109-116 | with zeroing on release, every acquired buffer is all zeros, although a rollback does not zero |
| PoolInterleaving.BatchIsZero | include/chem/models/data_pool.hpp:118-135 | so is every buffer of every returned batch |
| PoolInterleaving.NeverFailsIff | include/chem/models/data_pool.hpp:118-135 | from any state, no interleaving without new acquisitions lets a batch in progress fail exactly when the queue holds as many buffers as those batches still miss together; otherwise already some order of their pops does |
| PoolInterleaving.AloneReturns | include/chem/models/data_pool.hpp:118-135 | with enough buffers queued, an undisturbed batch returns with the next ones |
| PoolInterleaving.BothBatchesFail | include/chem/models/data_pool.hpp:118-135 | in a pool of two, a batch of two that is alone can never fail and returns, but two such batches can both fail |
| BufferPool.NewPool | include/chem/models/data_pool.hpp:38-50 | refuses exactly the empty pool, and otherwise gives one with that many distinct zeroed buffers of that size and that setting |
| BufferPool.DataArrayPool.constructor | include/chem/models/data_pool.hpp:38-50 | that many distinct zeroed buffers |
| BufferPool.DataArrayPool.Acquire | include/chem/models/data_pool.hpp:109-116 | the front buffer, or an exception exactly when there is none |
| BufferPool.DataArrayPool.AcquireBatch | include/chem/models/data_pool.hpp:118-135 | undisturbed, it succeeds exactly when enough buffers are there, and otherwise leaves the queue unchanged, order included |
| BufferPool.DataArrayPool.Release | include/chem/models/data_pool.hpp:139-147 | rejects null; otherwise zeroes if so configured and appends |
| AntennaGrid.UniqueSorted | utils/generate_antenna_headers.py:69-77 | ascending values more than the tolerance apart, each a given value, every given value within the tolerance above one of them |
| AntennaGrid.BuildGrid | utils/generate_antenna_headers.py:92-119 | the fill loop with its range checks computes `Build` |
| Rounding.RoundEvenMeaning | utils/generate_antenna_headers.py:113-114 | Python's `round`: the nearest whole number, halves to the even one |
| AntennaCells.AxisIff | utils/generate_antenna_headers.py:80-89 | an axis exists exactly for at least two distinct values with steps within the tolerance of the first; it starts at the smallest value and has the first step |
| AntennaCells.AcceptedIff | utils/generate_antenna_headers.py:92-119 | a list is accepted exactly when both angles have an axis, there are as many entries as cells, and every angle is rounded onto its axis |
| AntennaCells.FineAccepted | utils/generate_antenna_headers.py:92-119 | with steps well above the tolerance the range checks never reject |
| AntennaCells.OnceIffNoClash | utils/generate_antenna_headers.py:101-117 | for every accepted list of entries, each cell is written exactly once and holds its entry's gain if and only if no two entries are written to the same cell |
| AntennaSlots.OnceIffRoundsHome | utils/generate_antenna_headers.py:92-119 | for every accepted list of entries that are separated by more than the tolerance, each cell is written exactly once if and only if every angle rounds to the number of the distinct value it was merged into (a counting argument on both numberings of the cells) |
| AntennaCells.Drift | utils/generate_antenna_headers.py:80-89 | accepted values are within one tolerance per step of an arithmetic progression |
| AntennaCells.EachCellOnce | utils/generate_antenna_headers.py:92-119 | if the step of both axes is more than twice their size in tolerances, each cell is written exactly once if and only if any two entries differ by more than the tolerance in some angle |
| AntennaCells.Progression | utils/generate_antenna_headers.py:80-89 | on an exact lattice, accepted values form an exact arithmetic progression |
| AntennaCells.EachCellOnceOnLattice | utils/generate_antenna_headers.py:92-119 | for distinct angles on an exact lattice, each cell is written exactly once however small the step |
| AntennaWitnesses.DriftClashes | utils/generate_antenna_headers.py:80-117 | accepted, well separated entries with a small step of which two are written to the same cell |
| AntennaLookup.FlatInBounds | utils/generate_antenna_headers.py:232-244 | for all real angles the table is read within its bounds |
| AntennaLookup.LookupPeriodic | utils/generate_antenna_headers.py:232-244 | the lookup has period one turn in phi |
| AntennaLookup.PhiNearest | utils/generate_antenna_headers.py:232-237 | for every phi and every axis, phi reduced by whole turns is within half a step, halves upward, of the multiple of the step that is the column after whole rounds of the axis |
| AntennaLookup.ThetaNearest | utils/generate_antenna_headers.py:239-241 | for every theta and every axis, the first row below the axis, the last row above it, and the nearest in between |
| AntennaLookup.LookupIsNearestCell | utils/generate_antenna_headers.py:232-244 | for every pair of angles, the lookup in an emitted table returns the cell in that row and column |
| AntennaLookup.PhiExactIff | utils/generate_antenna_headers.py:232-237 | on the grid, the lookup finds its own column exactly when the angle is less than one turn above the first |
| AntennaLookup.PhiRoundIff | utils/generate_antenna_headers.py:232-237 | for every phi whose rounded index is on the axis, the lookup finds the column that the builder computes exactly when phi is in its own turn and no even tie, where `round` and `std::llround` differ |
| AntennaLookup.ThetaRoundIff | utils/generate_antenna_headers.py:239-241 | the lookup finds the row that the builder computes exactly unless theta is an even tie below the last row |
| AntennaLookup.LookupReadsIff | utils/generate_antenna_headers.py:92-131 | for every entry of every accepted list, whatever its steps: the emitted lookup at the entry's angles reads the place it was written to if and only if phi is in its own turn (for steps of at most a turn: less than one turn above the smallest), phi is no even tie, and theta is no even tie below the last row |
| AntennaLookup.FoundGain | utils/generate_antenna_headers.py:92-131 | where the cells are written once each, the lookup then returns the entry's gain |
| AntennaLookup.LookupAgrees | utils/generate_antenna_headers.py:92-131 | for axes as in `EachCellOnce` there are no ties: the own place exactly when phi is in its own turn, and for separated entries then the entry's gain |
| AntennaLookup.LookupAgreesOnLattice | utils/generate_antenna_headers.py:92-131 | on an exact lattice the same for every step |
| AntennaWitnesses.FullTurnMisses | utils/generate_antenna_headers.py:232-237 | an accepted pattern with phi 0 and a full turn, where the lookup at the full turn returns the gain of phi 0 |
| AntennaWitnesses.TieMisses | utils/generate_antenna_headers.py:112-117 | an accepted pattern of separated entries, each cell written once and no phi near a full turn, where the lookup at an entry's angles, an even tie, returns another entry's gain |
| AntennaLookup.NearestTable | utils/generate_antenna_headers.py:218-229 | the first table of smallest frequency distance |
| NodeConfigs.NodeConfig.FromJson | include/chem/models/node_config.hpp:213-395 | whatever the object held before, decoding an encoded configuration overwrites exactly what the encoding carries; other JSON values are decoded block by block, each block keeping what it has set when something in it throws |
| NodeConfigs.DecodeOnto | include/chem/models/node_config.hpp:168-395 | the same for the specification, with default channels, untuned sides and gain fallback |
| NodeConfigs.DecodeForgetsIff | include/chem/models/node_config.hpp:168-395 | decoding forgets what the object held before exactly when the encoding carries every optional part |
| NodeConfigs.StaleValuesStay | include/chem/models/node_config.hpp:213-395 | an object that decoding a fresh configuration leaves as it was, location and all |
| NodeConfigs.ChannelNormalised | include/chem/models/usrp_channel.hpp:60-100 | a channel comes back with its untuned sides reset |
| NodeConfigs.DecodeEncode | include/chem/models/node_config.hpp:168-395 | decoding an encoded configuration gives its normal form: default channels filled in, untuned sides reset, negative logical node -1, missing gains taken from the first channel |
| NodeDecoding.GainsBorrowed | include/chem/models/node_config.hpp:339-370 | a gain that is not set comes back as the first channel's exactly when that side is tuned and its gain is more than 1e-12 away from zero, and is missing otherwise |
| NodeDecoding.EncodedAlways | include/chem/models/node_config.hpp:168-173 | the members that are always written |
| NodeDecoding.EncodedIfSet | include/chem/models/node_config.hpp:174-192 | which of channels, logical node, location, vehicle and key are written, and how |
| NodeDecoding.EncodedRest | include/chem/models/node_config.hpp:193-211 | which of node type, gains and formats are written, and how |
| NodeDecoding.ChannelWritten | include/chem/models/usrp_channel.hpp:84-100 | an encoded channel has exactly its tuned sides |
| NodeDecoding.LocationAndGainsWritten | include/chem/models/node_config.hpp:180-203 | the members of an encoded location and of encoded gains |
| NodeDecoding.BlocksIndependent | include/chem/models/node_config.hpp:213-395 | for any JSON value and any object, the decoder's blocks do not interfere, except through the number of channels and the channels themselves |
| NodeDecoding.DecodedText | include/chem/models/node_config.hpp:213-395 | ids, names, formats and the vehicle address: taken from string members, kept otherwise; an id that is no string hides the name |
| NodeDecoding.DecodedKey | include/chem/models/node_config.hpp:311-337 | the AERPAW key as a string or an object, lower-case name only if the upper-case one is absent |
| NodeDecoding.DecodedChannels | include/chem/models/node_config.hpp:223-245 | the number of channels cut to eight bits, the list of channels, and untuned ones in place of an absent list |
| Rounding.TruncMeaning | include/chem/models/node_config.hpp:222-226 | conversion to an integer type: toward zero |
| NodeDecoding.DecodedChannel | include/chem/models/usrp_channel.hpp:60-82 | a side is read up to the first of frequency, gain and antenna that is missing or of the wrong type |
| NodeDecoding.DecodedRates | include/chem/models/usrp_channel.hpp:141-169 | a rate that is missing or no number is one million |
| NodeDecoding.DecodedNumbers | include/chem/models/node_config.hpp:257-381 | the logical node as a number or a numeral, the node type as a whole number |
| NodeDecoding.DecodedLocation | include/chem/models/node_config.hpp:272-299 | the location is set exactly when all three coordinates can be read, with 0 for a missing one |
| NodeDecoding.DecodedGains | include/chem/models/node_config.hpp:339-370 | a given gain, else the old one, else the first channel's if it is more than 1e-12 away from zero |
| NodeConfigs.RoundTripIff | include/chem/models/node_config.hpp:168-395 | the round trip is the identity exactly on the stable configurations |
| NodeConfigs.RoundTripIdempotent | include/chem/models/node_config.hpp:168-395 | a second round trip changes nothing more |

## Left out

- Several number kinds, their cross-kind equality, NaN, binary and discarded values: documents have one exact number kind.
- Aliasing inside a document: references into the tree are modelled as paths, so two references to one place are not.
- Memory limits: growing an array to a huge index in `unflatten` succeeds in the model, where the library would run out of memory.
- `JSON_DIAGNOSTICS` parent pointers, allocators, iterator plumbing, the text lexer and the binary readers.
- The `ordered_map` instantiation of documents: objects are visited in key order, as with `std::map`.
- Float rounding everywhere: gains, delays, angles and positions are reals.
- HTTP, sockets and threads as operating system objects: a request goes through or throws, and a request that throws did not reach the server.
- SionnaSync.AlwaysAligned: assumes that no two nodes ever have the same resolved name during a run; that the server appends and lists devices in the order of its successful POSTs is part of the model.
- SionnaClient.SionnaExtension.ApplyCir: the extraction of path data from the JSON answer is a cell that is present or missing; the response-time average is not modelled.
- SionnaStop.NoMarkAfterStop: data races on the channel map itself are not modelled; each visit of a channel is one step.
- CirTaps.CirToTaps: negative rounded indices, whose conversion to `size_t` is undefined, are excluded.
- PoolInterleaving.BuffersPartitioned: threads write and release only buffers they hold; single pops and pushes of the concurrent queue are atomic.
- NodeConfigs.NodeConfig.FromJson: integers are not limited to 32 bits; a whole float counts as an integer `node_type`; number-in-string conversion is a parameter.
- The fields of a node configuration that never go over the wire: ports, antenna patterns, characteristics.
- The NUMA constructors and `DataPool`: the same queue code once more.
- `get_unchecked`, `operator/` and the other pointer accessors: easy members beside those modelled.
- `Intermediate`, `Channel`, `Coordinator`, the DSP kernels and the extension registry: only their declarations are in the repository.
- Path-loss formulas, the dipole pattern, the terminal user interface, benchmark plotting, argument parsing and file output.
