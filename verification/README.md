# Yakka, modelled and proved

Yakka is an object system for C: reference-counted objects with weak references, errors that chain to their
causes, classes with inherited method chains, interfaces looked up in sparse tables, and a runtime that recycles
memory pools. This project models that library, together with the classes Alpha and Delta that use it, and proves
what its callers rely on.

The model has two layers.

- The library as it runs, in place: `Yakka` (objects with mutable fields, and the runtime), `Pools.PoolBuffer` (the
  circular array of cleared pools), `Interfaces` (the registry and the tables) and `TypeTables` (class structures).
  Each of these methods is proved to do exactly what a function on values says.
- The same calls on values: `Heaps` says what each call makes of a heap, `Classes` what building a type makes of the
  set of classes. The theorems are about these functions: over every heap, every run of calls, every class hierarchy.

A heap is a map from object identities to objects. Identities are never used twice, and a destroyed object stays in
the map, marked as deleted; `Uses` and `SafeCalls` follow every call and its cascades step by step and prove exactly
when they use an object so marked. Callers hold a multiset of references; a run is any sequence of calls by callers
that use only references that they hold (`Runs.Allowed`).

| file | contents |
|---|---|
| `Pools` | the pool recycler: ring, bounded stack, refinement |
| `Classes`, `TypeTables` | type construction, method chains, `y_is_a` |
| `Heaps` | every call on a heap, as a function; termination of the destroy cascade |
| `Cascade`, `Counts`, `WeakRefs`, `Doom` | what a cascade leaves alone; counts through it; weak references through it; which objects it destroys |
| `Accounts`, `Calls`, `WeakCalls`, `PoolCalls` | the same for each call |
| `Retained`, `Members` | what calls leave of objects that stay alive; members, setters, private structures and cleanups over whole runs |
| `LastResorts` | the cleanup of last resort |
| `Uses`, `WeakKinds`, `SafeCalls` | no call uses an object that has been destroyed |
| `Runs`, `Onward`, `Derefs` | whole runs; what is never undone; how long a weak reference stays set |
| `Limits`, `AssignLimits`, `LimitRuns` | where the promises stop: exact conditions, and runs that reach them |
| `ChainRuns`, `Copies`, `DeltaCopies`, `Assignments`, `ErrorChains` | chains, copying, assignment, errors |
| `Yakka` | the calls in place |
| `Interfaces` | identifiers and sparse tables |
| `RefProtocol`, `DerefProtocol`, `IdProtocol` | interleavings of any number of threads: the steps and their invariants; identifiers from request to answer |
| `RefOutcomes`, `DerefOutcomes` | what refs, unrefs and derefs bring their callers in every interleaving |
| `LockOrder`, `LockSteps` | the order of the mutexes; no deadlock; the moves it assumes are the steps of the protocols |

`dafny verify dfyconfig.toml` checks everything.

The code is followed where it and its documentation differ: `y_Object_clear` exists and releases the weak reference
although yakka/Object-protected.h:107-109 says that Object needs no clear method; `y_Runtime_init_type` returns NULL,
not the existing type, when the location is filled (yakka/Runtime.h:55-60); `Delta_set_c` takes a reference of its own
although its comment says that it keeps the caller's, and `Delta_get_c` takes none although its comment says that it
does (test/ootest/Delta.c:73-80, 93-99); `y_Error_clear` releases the cause also when told not to.

## Model

| member | source | states |
|---|---|---|
| Pools.StorePushes | yakka/Runtime.c:249-254 | on a ring of any size, stepping on and writing pushes onto the stack that the ring stands for; the slot overwritten held the oldest pool exactly when the ring was full |
| Pools.TakePops | yakka/Runtime.c:223-226 | emptying the slot at the position and stepping back pops the newest pool, and finds NULL exactly when the stack is empty |
| Pools.RepresentsOne | yakka/Runtime.c:19-22 | the occupied slots form one contiguous block ending at the position, so a ring stands for one stack only |
| Pools.RingRefinesStack | yakka/Runtime.c:215-266 | for every size and every sequence of create and free requests, the ring gives the answers of a bounded stack that drops its oldest element |
| Pools.RecycleAllKeepsNewest | yakka/Runtime.c:240-266 | freeing a series of pools keeps the newest that fit and destroys the others oldest first |
| Pools.RecycleThenDraw | yakka/Runtime.c:215-266 | a pool just freed is the next one handed out, unless the buffer has no slots, in which case it is destroyed |
| Pools.PoolBuffer.CreateObjectPool | yakka/Runtime.c:215-238 | in place: hands out the newest buffered pool, or a fresh one when there is none, for buffers of any size including none |
| Pools.PoolBuffer.FreeObjectPool | yakka/Runtime.c:240-266 | in place: the pool becomes the newest, and the oldest is destroyed exactly when the buffer was full |
| Classes.IsAIffAncestor | yakka/Object.c:22-38 | the search up the hierarchy succeeds exactly on the ancestors of a class, itself included |
| Classes.BuildAllBuilds | yakka/Object.c:379-421 | for any series of types built after their super types, all three method lists of every type equal its ancestry, root first, filtered to the types that define the method, whether extended or inherited by the copy; and its interface table is that of its nearest ancestor that packed one |
| Classes.BuildOne | yakka/Runtime.c:182-196 | building one more type leaves every finished type right and makes the new one right |
| Classes.EntriesAreAncestors | yakka/Object.c:398-419 | an entry is in a list exactly when its type is an ancestor under `y_is_a` and the method is that type's own |
| Classes.BuiltIsSound | yakka/Object-protected.h:51-118 | whatever classes an application adds, every class releases what its ancestors own, no class defines two assign entries, and weak references own nothing but weak references |
| Classes.RepositoryIsSound | test/ootest/Delta.c:194-216 | the repository's own classes can be built in order, and meet all that the other theorems require of classes |
| TypeTables.ExtendList | yakka/MethodList.c:6-25 | a new list with one entry more at the end; the existing list is not touched |
| TypeTables.FillType | yakka/Object.c:379-421 | in place: each list is extended exactly when the class passes a method of that kind, otherwise the copied one stays |
| TypeTables.TypeTable.InitType | yakka/Runtime.c:174-201 | in place: NULL and no change exactly when the location is filled; otherwise the new class, and every class of the table still is what its definition and ancestry say |
| TypeTables.TypeTable.IsAncestor | yakka/Object.c:22-38 | the loop over `super` answers whether the expected class is in the ancestry; NULL arguments answer no |
| TypeTables.InheritedInterfaces | yakka/Runtime.c:182-196 | looking an interface up on an instance gives what the nearest class up its ancestry that packed a list says for the name, and NULL when none did: the copy of the structure passes the table on |
| Heaps.Unref | yakka/Object.c:275-307 | terminates on every heap, cyclic object graphs included, because the set of objects with positive count shrinks before each recursion; no count rises from zero |
| Heaps.ClearObject | yakka/Object.c:129-150 | the same for the clear chain, whichever objects its methods release |
| Heaps.Destroy | yakka/Object.c:341-350 | the same for destruction, with the last-resort cleanup that freeing the pool may fire |
| Cascade.UnrefFrame | yakka/Object.c:275-307 | on every heap whose pools are in step: dropping a reference writes members, slots and class only of objects that it brings to zero; of the others counts may fall, never rise, and targets may become NULL; every pool stays in one state and in one object's use |
| Cascade.ClearObjectFrame | yakka/Object.c:129-150 | clearing an object restores its class, and writes neither members, slots nor class of any other object that keeps a reference |
| Cascade.DestroyFrame | yakka/Object.c:341-350 | a destroyed object ends up marked, with its pool back at the recycler; members, slots and classes of the objects that keep a reference are as they were |
| Cascade.Retire | yakka/Object.c:55-64 | the last-resort callback that clearing the pool fires inside `y_destroy` does nothing, because the mark is set first |
| Counts.CountsHandOver | yakka/Object.c:48-51 | releasing a slot before nulling it: the slot's share of the count passes to the call, and the books balance in between |
| Counts.ClearObjectReleases | yakka/Object.c:129-150 | the clear chain leaves none of the object's slots set, wherever in the chain the class comes that owns the slot |
| Counts.UnrefBalances | yakka/Object.c:275-307 | through a cascade of any depth, every count stays what callers and the owning slots account for, also while other objects are being cleared further out |
| Counts.DestroyBalances | yakka/Object.c:341-350 | destroying an object gives back exactly the references that its slots held |
| Doom.UnrefDestroys | yakka/Object.c:275-307 | dropping a reference destroys an object if and only if the reference was the last one of its object and the other is in the least set that contains that object and everything that no caller holds and that is owned from within the set alone; on every heap in the middle of a cascade, cycles included |
| Doom.ClearDestroys | yakka/Object.c:123-127 | clearing an object that lives on destroys exactly what would go with it |
| AssignLimits.AssignDestroys | yakka/Object.c:162-181 | and so does assigning over it: the assign methods destroy nothing more |
| Accounts.RefSane | yakka/Object.c:249-273 | a granted reference is one more on the books, for the caller |
| Accounts.WeakRefSane | yakka/Object.c:309-327 | on first use and later, the caller gains one reference to the object's one weak reference |
| Accounts.ThrowSane | yakka/Error.c:9-45 | the reference that the location held moves into the new error's cause, and the location holds the new error; no other object changes |
| Accounts.DerefSane | yakka/WeakRef.c:28-45 | the caller gains exactly the reference that it is given |
| Calls.ClearSane | yakka/Object.c:123-127 | after `y_clear` no slot of the object is set and every reference they held is back |
| Calls.CreateSane | yakka/Object.c:66-121 | on success the caller holds the new object, after a failing init method only the error; the objects there were are as they were |
| Calls.AssignSane | yakka/Object.c:152-186 | also for an object assigned to itself: whether it succeeds, refuses or is stopped at any method, all counts balance, a source that is another object is unchanged and both objects have their class back |
| Calls.CopySane | yakka/Object.c:188-207 | the caller ends up with the copy, or an error, or neither, and everything else balances |
| Runs.CallGood | yakka/Object.c:249-327 | every call by a caller that uses references it holds keeps the accounts |
| Runs.RunsAreGood | yakka/Object.c:249-307 | conservation over whole runs of create, ref, unref, weak_ref, deref, throw, set_b, set_c, set_d, clear, assign and copy |
| Runs.GoodMeans | yakka/Object.c:249-307 | what the accounts say: each count is the handles held plus the owning slots, held objects are alive, an object is alive exactly when its count is positive, and no slot points at a destroyed object |
| Runs.RunsAgree | yakka/Object.c:275-327 | weak references and referents agree throughout every run in which `y_clear` and `y_assign` hit no object whose weak reference is shared, to any depth of weak references to weak references |
| Runs.RunsAgreeBut | yakka/Object.c:249-327 | in every world of every run weak references and referents agree, all but those weak references whose referent has been cleared or assigned over while they were its own |
| Runs.AgreedMeans | yakka/WeakRef.c:7-45 | an object's `weak_ref` is w exactly when live w has it as its target, and a set weak reference has a live referent |
| WeakRefs.OneWeakRef | yakka/Object.c:309-327 | two live weak references set to the same object are one |
| WeakRefs.UnrefAgreed | yakka/Object.c:285-306 | the unset in `y_unref` restores agreement at once, and the cascade that follows keeps it, whatever it destroys |
| WeakCalls.DerefFinds | yakka/WeakRef.c:28-45 | on a weak reference that has not been cut off, deref returns one more reference, to a live object whose weak reference this is, exactly when the target is set; otherwise nothing changes |
| Derefs.DerefExactlyWhileAlive | yakka/WeakRef.c:28-45 | in every run, once set to an object a weak reference yields that object exactly as long as the object lives, whatever happens in between; what deref would touch when a cut-off one dangles is said in `SafeCalls.DerefIsSafeExactly` |
| WeakCalls.WeakRefAgreed | yakka/Object.c:309-327 | making a weak reference on first use, or handing out the existing one, keeps agreement |
| WeakCalls.ClearAgreedIff | yakka/Object.c:40-53 | clearing an object with a weak reference keeps agreement if and only if that weak reference does not outlive the clearing |
| Limits.ClearSeparatesHeld | yakka/Object.c:47-51 | whoever else owns the weak reference: as long as a caller holds it, `y_clear` on its referent separates the two |
| Limits.ClearAgreedDoomed | yakka/Object.c:123-127 | clearing an object keeps agreement if and only if its weak reference goes with it: no caller holds the weak reference, and whatever else owns it goes too |
| Limits.ClearAgreedExactly | yakka/Object.c:123-127 | when only the object's slot points at its weak reference, `y_clear` keeps agreement if and only if no caller holds the weak reference |
| AssignLimits.AssignAgreedIff | yakka/Object.c:162-181 | assigning onto an object with a weak reference keeps agreement if and only if that weak reference does not outlive the call, whatever the assign methods do and also when source and target are one |
| AssignLimits.AssignAgreedDoomed | yakka/Object.c:162-181 | assigning over an object keeps agreement if and only if its weak reference goes with the clear, read off the heap before the call |
| AssignLimits.AssignAgreedExactly | yakka/Object.c:163 | when only the object's slot points at its weak reference, `y_assign` onto the object keeps agreement if and only if no caller holds the weak reference |
| AssignLimits.AssignSeparatesHeld | yakka/Object.c:163 | whoever else owns the weak reference: as long as a caller holds it, `y_assign` onto its referent separates the two |
| LimitRuns.ClearSeparates | yakka/Object.c:47-51 | the run create, weak_ref, clear ends with a weak reference that is set to an object which no longer knows it |
| LimitRuns.AssignSeparates | yakka/Object.c:152-186 | so does the run create, create, weak_ref, assign |
| Limits.SetCSameExactly | test/ootest/Delta.c:81-91 | storing the object that the slot already holds works if and only if somebody else holds it too; otherwise the slot ends up NULL and the object is destroyed |
| Limits.SetCExactly | test/ootest/Delta.c:81-91 | storing an object works if and only if it is alive and does not go with the one that the slot held, through however many slots of whatever kind |
| LimitRuns.SetCLoses | test/ootest/Delta.c:81-100 | the run create, create, set_c, unref reaches a Delta that loses its `c`, and destroys it, by storing it again |
| Limits.SelfAssignExactly | yakka/Object.c:162-165 | assigning a Delta to itself empties it, so its members survive if and only if they were empty |
| LimitRuns.SelfAssignEmpties | yakka/Object.c:162-165 | the run create, set_b, assign to itself loses the string |
| Uses.UnrefIsSafe | yakka/Object.c:275-307 | dropping a reference touches no object that has been destroyed, at any depth of the cascade: each object is alive when it is locked and when its count, slots, class or members are read or written, and so is the weak reference that is locked around it and unset |
| Uses.DestroyIsSafe | yakka/Object.c:341-350 | an object is destroyed once only, is alive in every turn of its clear chain, and the cleanup that freeing its pool fires is its own |
| Uses.CalmRelease | yakka/Object.c:47-51 | while `y_clear` releases the weak reference of an object that lives on, the cascade leads to younger weak references only, never back to the object whose slot is still set |
| WeakKinds.RunsAreWeakly | yakka/WeakRef.c:7-18 | in every run what a `weak_ref` slot points at owns nothing but a weak reference, and is younger than its referent |
| SafeCalls.CallIsSafe | yakka/Object.c:66-327 | no call of the library touches an object that has been destroyed, given references that the caller holds; for deref it takes agreement, since the target is not counted |
| SafeCalls.RunsAreSafe | yakka/Object.c:249-350 | in no run does a call use an object that has been destroyed, except exactly the derefs of dangling weak references: those whose referent an earlier call cleared or assigned over while they were its own, and that has been destroyed since; in a run whose clears and assigns meet no shared weak reference there are none |
| SafeCalls.DerefIsSafeExactly | yakka/WeakRef.c:28-45 | at any point of any run, a deref of a weak reference that the caller holds is safe if and only if the weak reference does not dangle; a clear of another object does not matter, and neither does a clear of the referent as long as the referent lives |
| SafeCalls.CutOffStaysSet | yakka/Object.c:47-51 | a weak reference that has been cut off stays set to its referent for good, dead or alive, since nobody is left to unset it |
| LimitRuns.DerefUnsafe | yakka/WeakRef.c:28-45 | the run create, weak_ref, clear, unref leaves a weak reference dangling: still set to the object, which has been destroyed |
| Onward.RunsMoveOn | yakka/Object.c:263-266 | in every run an object whose count reached zero is never revived, a weak reference once unset stays unset, the strings of all objects stay other than empty, and weak references stay younger than their referents |
| Onward.PoolsPartition | yakka/Runtime.c:215-266 | between calls every pool ever made is in exactly one of in use, buffered or destroyed, live objects share none, and the final clear ran exactly once for each deleted object and for no live one |
| Onward.CallLater | test/ootest/Delta.c:40-58 | one call of any kind keeps what `RunsMoveOn` says |
| Members.SetBWrites | test/ootest/Delta.c:40-58 | on every heap, `Delta_set_b` writes one string of one object and nothing else anywhere: `d`, the other members and every other object are as they were; NULL and the empty string are stored as NULL, any other string as it is |
| Members.SetDWrites | test/ootest/Delta.c:118-136 | the same for `Delta_set_d` and the string `d` |
| Members.RunsRetain | yakka/Object.c:123-207 | in every run an object keeps its class as long as it lives, and every member it has, unless it is the object that a call sets, clears or assigns to; in particular copying, throwing and the destruction of others write none |
| Members.LastB | test/ootest/Delta.c:40-71 | in every run `Delta_get_b` on a live object gives the string of the last `Delta_set_b`, NULL if that was empty, until the object is cleared or assigned to, whatever happens to it otherwise |
| Members.LastD | test/ootest/Delta.c:118-149 | the same for `d` |
| Retained.CreateEquips | test/ootest/Delta.c:155-165 | a created object has Delta's private structure if and only if its class is Delta or descends from it, whatever other init methods its class has |
| Members.RunsAreEquipped | test/ootest/Delta.c:118-165 | at every point of every run, after setting, clearing, assigning and copying too, every live object has the private structure if and only if its class descends from Delta, so that `Delta_set_d` never goes through NULL |
| Members.RunsAreRegistered | yakka/Object.c:111-112 | at every point of every run, the cleanup of last resort is registered for every live object, with the object's own pool |
| LastResorts.LastResortClears | yakka/Object.c:55-64 | for an object still alive when its pool is cleared, unless it is an error: its members are zeroed by the clear methods of its class, it is marked, its slots keep what they held, and no other object in the heap changes |
| LastResorts.LastResortSpares | yakka/Object.c:58-62 | when the object is marked, or none is registered, nothing happens but that the registration is used up |
| ChainRuns.ClearObjectWalks | yakka/Object.c:129-150 | running the flat list backwards is the walk from the object's class up to the root, each defining class running its method on the object typed as itself, and the class is restored |
| ChainRuns.CreateWalks | yakka/Object.c:96-109 | running the flat list forwards is the walk from the root down, up to the first error |
| ChainRuns.AssignWalks | yakka/Object.c:162-181 | the same for assignment, both objects typed as the defining class, up to the first refusal or error |
| WeakCalls.CreateBare | yakka/Object.c:76-111 | a completed create ends at the class asked for, with one reference, no slot set and every member zero |
| Copies.CreateOutcome | yakka/Object.c:66-121 | `y_create` succeeds exactly when no init method reports an error; after a failure only the error is new and the pool is idle again |
| Copies.CopyOutcome | yakka/Object.c:188-207 | for every class: `y_copy` succeeds exactly when no init method throws, there is an assign list and no assign method refuses or throws; a failed copy changes no object that was there, leaves no live object but the error, and its pool is idle again |
| Copies.CopyThenUnref | yakka/Object.c:275-307 | unreffing a copy brings every object back to exactly what it was, and the pool is idle again |
| DeltaCopies.DeltaCopied | test/ootest/Delta.c:167-192 | for every Delta: copying yields another Delta with equal a, b, c and d, nothing else changes but the count of a non-null c, and unreffing the copy undoes all of it |
| DeltaCopies.DeltaListsBuilt | test/ootest/Delta.c:194-209 | the lists of Delta are those of Object, Alpha and Delta in that order |
| Assignments.ClearEmpties | test/ootest/Delta.c:181-192 | clearing zeroes the members of each class of the object, whether or not it releases objects |
| Assignments.AssignMakesEqual | yakka/Object.c:152-186 | `y_assign` succeeds exactly when the classes are the same, there is a list, and no method refuses or throws; then the copied members are equal; without a list or with different classes nothing happens |
| Assignments.SetCFromStores | test/ootest/Delta.c:81-91 | in `Delta_assign` the source's own reference keeps the shared object alive, whatever the target releases first |
| ErrorChains.ThrowsChain | yakka/Error.c:9-45 | after n throws into an empty location the causes lead from the newest error to the oldest, each with its code and description and a single reference |
| ErrorChains.ErrorClearsBuilt | yakka/Error.c:115-130 | the error class, as built, clears by Object's method and its own and nothing else |
| ErrorChains.UnrefTearsDown | yakka/Error.c:99-113 | releasing a solely owned head destroys the whole chain, deepest cause first, each error once, and touches nothing else |
| ErrorChains.ThrowsTornDown | yakka/Error.c:9-45 | n throws and one unref leave every older object as it was, and the buffered pools become the earlier ones followed by the n pools in throw order, cut to the newest that fit |
| Yakka.Runtime.Ref | yakka/Object.c:249-273 | in place: one reference more exactly when the count is positive, else NULL |
| Yakka.Runtime.Unref | yakka/Object.c:275-307 | in place: the cascade on values, including its termination |
| Yakka.Runtime.Destroy | yakka/Object.c:341-350 | in place: clear, mark, free the pool; nothing when already marked |
| Yakka.Runtime.LastResort | yakka/Object.c:55-64 | in place: clears the registered object without releasing objects, unless it is marked |
| Yakka.Runtime.FreePool | yakka/Runtime.c:240-266 | in place: the pool's cleanups run before it is recycled |
| Yakka.Runtime.ClearObject | yakka/Object.c:129-150 | in place: the backward loop with its blessings is the clear chain on values |
| Yakka.Runtime.ClearObjectSlots | yakka/Object.c:40-53 | in place: the weak reference is unreffed, then the slot nulled, only when objects are to be released |
| Yakka.Runtime.ClearError | yakka/Error.c:99-113 | in place: code and description zeroed, cause unreffed and then nulled |
| Yakka.Runtime.ClearAlpha | test/ootest/Alpha.c:34-42 | in place: `a` zeroed on instances of Alpha only |
| Yakka.Runtime.ClearDelta | test/ootest/Delta.c:181-192 | in place: strings freed, and `c` released when objects are to be |
| Yakka.Runtime.SetB | test/ootest/Delta.c:40-58 | in place: writes the field `b` only, with the string given or, for an empty one, NULL |
| Yakka.Runtime.SetC | test/ootest/Delta.c:81-91 | in place: the old object is unreffed before the new one is reffed |
| Yakka.Runtime.SetD | test/ootest/Delta.c:118-136 | in place: writes the field `d` only, with the string given or, for an empty one, NULL |
| Yakka.Runtime.UnsetWeakRef | yakka/WeakRef.c:20-26 | in place: the target becomes NULL |
| Yakka.Runtime.Create | yakka/Object.c:66-121 | in place: object, pool, init loop, class and cleanup registration, or the failure path with the pool given back |
| Yakka.Runtime.RunInits | yakka/Object.c:96-109 | in place: the forward loop stops at the first method that leaves an error |
| Yakka.Runtime.ExecInit | test/ootest/Delta.c:155-165 | in place: after Delta's init method the private structure is there if and only if it was before or the object is a Delta; the other methods do what they do on values |
| Yakka.Runtime.Throw | yakka/Error.c:9-45 | in place: nothing without a location; otherwise the new error replaces the one there and takes it as its cause |
| Yakka.Runtime.NewWeakRef | yakka/WeakRef.c:7-18 | in place: a new weak reference set to the instance |
| Yakka.Runtime.WeakRefTo | yakka/Object.c:309-327 | in place: made on first use, then reffed for the caller |
| Yakka.Runtime.Deref | yakka/WeakRef.c:28-45 | in place: the target reffed for the caller, or NULL |
| Yakka.Runtime.AssignDelta | test/ootest/Delta.c:167-179 | in place: b, c and d set one after the other from the source |
| Yakka.Runtime.ExecAssign | test/ootest/Alpha.c:21-32 | in place: one assign method with its checks of both casts |
| Yakka.Runtime.RunAssigns | yakka/Object.c:165-177 | in place: the forward loop stops at the first refusal or error |
| Yakka.Runtime.Assign | yakka/Object.c:152-186 | in place: NULL arguments, missing list and different classes refused; otherwise clear, loop, both classes restored |
| Yakka.Runtime.Copy | yakka/Object.c:188-207 | in place: create, assign, and on any failure unref of what was created |
| Interfaces.RegisterAllNumbers | yakka/Runtime.c:109-139 | however many names are asked for, identifiers are 1 to n with one name each, and none is ever changed |
| Interfaces.PackedLater | yakka/Runtime.c:141-172 | a packed table stays right for every later state of the registry, also for names first registered after packing |
| Interfaces.CachedStaysValid | yakka/Interface.h:62-67 | whatever is registered later, a cached identifier and a packed table keep giving the vtable of the last specification with the name; names new since then give NULL |
| Interfaces.Registry.GetInterfaceIdNolock | yakka/Runtime.c:109-121 | in place: the identifier the name has, or the next number |
| Interfaces.Registry.GetInterfaceId | yakka/Runtime.c:123-139 | in place, one thread: the same answer by way of the first look |
| Interfaces.Registry.PackInterfaces | yakka/Runtime.c:141-172 | NULL exactly for an empty list; otherwise, for every name, the table agrees with the last specification of that name in the list |
| Interfaces.Registry.GetImplementationByName | yakka/Object.c:365-377 | the vtable of the last specification with the name or NULL, for any name, known or not |
| Interfaces.Registry.GetInstanceVtable | yakka/Interface.h:62-67 | the same answer whether or not the caller's variable was set before, and the variable then holds the identifier |
| Interfaces.GetImplementation | yakka/Object.c:352-363 | what the table holds at the identifier, NULL beyond its end or without a table |
| RefProtocol.RunsKeep | yakka/Object.c:249-307 | the invariant of the steps of `y_ref` and `y_unref` under every interleaving of any number of threads, with or without a weak reference |
| RefProtocol.Interleavings | yakka/Object.c:258-306 | the count equals the references not yet given back; exactly one thread is told to clean up, when the count reaches zero; from then on no other thread has an access to the object pending; with the weak reference's lock free, a set target means a positive count |
| RefProtocol.ZeroStays | yakka/Object.c:263-266 | once zero, the count stays zero: no `y_ref` succeeds any more |
| RefProtocol.ChecksPass | yakka/Object.c:258-291 | whenever a thread that uses a reference it owns is about to check the count, at first or again under the lock, the count is positive |
| RefProtocol.RereadsAgree | yakka/Object.c:281-302 | the `weak_ref` slot that is read again after the object is unlocked is still the one sampled, and the object is not destroyed yet |
| RefOutcomes.OwnedIsBalance | yakka/Object.c:249-307 | in every interleaving, read off the events alone: a thread owns what it owned at the start, one reference more for each `y_ref` it has called and each one it was handed, one less for each `y_unref` it has called and each one it handed over |
| RefOutcomes.CallCounts | yakka/Object.c:249-307 | from its beginning to its return, whatever other threads do, a call of `y_ref` leaves its caller with exactly one reference more and a call of `y_unref` with exactly one less |
| RefOutcomes.CountMoves | yakka/Object.c:263-296 | the step under the lock of a `y_ref` raises the count by one and gives the caller the reference, that of a `y_unref` lowers it by one, and no other step moves it |
| RefOutcomes.QuietCounts | yakka/Object.c:249-307 | conservation from the events alone: when no thread is in a call, the count is the one at the start plus the refs called minus the unrefs called, and the object is destroyed, its weak reference unset and its slot cleared, if and only if that is zero |
| RefOutcomes.LastUnrefDestroys | yakka/Object.c:285-306 | when the `y_unref` that brought the count to zero returns, the object is destroyed, its weak reference unset and its slot cleared |
| RefOutcomes.SlotStays | yakka/Object.c:297-305 | the slot is cleared by the destruction and by nothing else, and the weak reference stays set as long as the count is positive |
| DerefProtocol.Interleavings | yakka/WeakRef.c:28-45 | under every interleaving of refs, unrefs and derefs of a weak reference the accounts hold: the count is the references not yet given back, one thread cleans up, and nobody in `y_ref` or `y_unref` touches the object after it |
| DerefProtocol.DerefIsSafeExactly | yakka/WeakRef.c:35-42 | at each step of the `y_ref` that a deref makes after unlocking, it touches a destroyed object if and only if every reference has been given back and the thread told to clean up has finished |
| DerefProtocol.KeptIsSafe | yakka/WeakRef.c:35-42 | as long as some thread keeps a reference, no deref touches a destroyed object |
| DerefProtocol.RaceIsUnsafe | yakka/WeakRef.c:35-42 | the interleaving in which the last reference goes between the unlocking and the ref of the target is reachable |
| DerefOutcomes.DerefYields | yakka/WeakRef.c:28-45 | in every interleaving, a deref that returns brings its caller exactly one reference or none; none if and only if it has read, at some step, that the target is unset or the count zero |
| DerefOutcomes.DerefFinds | yakka/WeakRef.c:35-42 | a deref that begins with the target set, and returns while the object is still referred to, brings exactly one reference |
| DerefOutcomes.KeptIsFound | yakka/WeakRef.c:35-42 | so that while some thread keeps a reference every deref finds the object, and leaves its caller owning exactly one reference more |
| DerefOutcomes.NothingIsFound | yakka/WeakRef.c:35-45 | a deref that begins with the target unset or the count zero brings nothing |
| DerefOutcomes.CallCounts | yakka/Object.c:249-307 | derefs in between take nothing from a `y_ref` and give nothing to a `y_unref`: one reference more, one less |
| LockOrder.ProgramsDescend | yakka/Object.c:258-325 | any sequence of the library's locking calls takes its mutexes in strictly descending order: weak reference, referent, runtime |
| LockOrder.RunsAreAged | yakka/Object.c:317-321 | in every run a weak reference is younger than its referent, which is what makes the order strict along chains of any length |
| LockOrder.NoCycle | yakka/Object.c:258-325 | no reachable state has a cycle of threads that wait for one another |
| LockOrder.NoDeadlock | yakka/Runtime.c:220-256 | while a thread is unfinished some thread can take its next step |
| LockOrder.StepsEnd | yakka/Object.c:258-325 | in every run, the steps made and the moves left add up to the moves there were at the start, so that no run is longer than that |
| LockOrder.RunsFinish | yakka/WeakRef.c:35-42 | a run that cannot go on has finished every thread and made every move |
| LockSteps.CountCallSteps | yakka/Object.c:258-302 | in every interleaving the locking and unlocking steps of a call of `y_ref` or `y_unref`, from beginning to return, are those whose order is proved: around the object, and around that the weak reference if and only if there is one |
| LockSteps.DerefCallSteps | yakka/WeakRef.c:28-45 | those of a deref likewise: its own and then those of the `y_ref` on what it found; only its own if it read under the lock that the target is unset, or then that the count is zero; none if it read so at once |
| LockSteps.InterfaceCallSteps | yakka/Runtime.c:123-139 | those of a request for an identifier: the runtime's mutex once, and not at all if the first look has found the name |
| LockSteps.MutexesExclude | yakka/Object.c:258-302 | in every interleaving of refs, unrefs and derefs at most one thread is between locking and unlocking the weak reference, and at most one between locking and unlocking the object |
| IdProtocol.RunsKeep | yakka/Runtime.c:109-139 | the invariant of look, lock, look again, count up, store and unlock under every interleaving |
| IdProtocol.Interleavings | yakka/Runtime.c:123-139 | with the mutex free the registry numbers its names from 1 on, one each; of the answers given so far, those for equal names are equal and those for different names different; and threads take turns under the mutex |
| IdProtocol.IdsNeverChange | yakka/Runtime.c:109-121 | no identifier is ever lost or changed, and no answer given is taken back |
| IdProtocol.RequestAnswered | yakka/Runtime.c:123-139 | from request to answer, whatever other threads do: a request is answered exactly once, for the name it asked for, with the identifier stored under that name, and with the one the name had before if it had one |
| IdProtocol.SameIdExactly | yakka/Runtime.c:109-139 | two requests, by one thread or two, one after the other or at once, are answered with the same identifier if and only if they asked for the same name |

## Left out

- The width of `refcount`, `interface_size` and `size` (C `int`): counts and identifiers are unbounded here.
- Memory as APR manages it: a pool is an identity that is in use, buffered or destroyed; the hash table is a map; a mutex is an optional owner. Mutex cleanups registered with pools are not represented.
- `y_Runtime_new` and `y_Runtime_destroy` with objects still alive, and `y_Error_clear` during last-resort cleanup with its dangling cause: they depend on the order in which APR destroys pools.
- Creating the same type from several threads, and `y_erase_type`: types are built one after the other, into empty locations.
- `y_try_lock`, `y_Error_throw_apr`, an error's file and line, the plain getters, the setter of Alpha's `a`, and the null checks at the head of calls on one object: they add no behaviour of their own. `y_assign` and `y_is_a` keep theirs.
- Struct layout, sizes and `strncpy`: instances are objects with all members, strings are sequences, and that empty strings are stored as NULL is kept.
- Beta and Gamma beyond Gamma's class, and the test programs.
- Init methods that take references and then fail, and application classes whose methods own references: application methods here succeed, refuse or throw. The clear and assign methods that do own references are those of Object, Error, Alpha and Delta.
- Calling `y_destroy` directly on an object to which references are still held.
- Runs.RunsAgree: asks that `y_clear` and `y_assign` meet no object whose weak reference others refer to; without that, `Runs.RunsAgreeBut` says which weak references still agree, `Limits.ClearAgreedDoomed` and `AssignLimits.AssignAgreedDoomed` when a call separates one, and `LimitRuns.ClearSeparates` and `LimitRuns.AssignSeparates` that it happens.
- SafeCalls.RunsAreSafe: excepts exactly the derefs of dangling weak references, which `LimitRuns.DerefUnsafe` shows to exist.
- RefProtocol.Interleavings: leaves out weak references made while other threads run, since `has_weak_ref` is sampled before locking; `y_WeakRef_deref` is added in `DerefProtocol`, where a thread that touches a destroyed object does nothing further. `y_destroy` is one step; what it does to other objects is in the sequential model.
- LockOrder.ProgramsDescend: the moves of `y_weak_ref` on first use and of drawing or freeing a pool have no protocol of their own to be read off; they are given in `LockOrder` only.
- LastResorts.LastResortClears: leaves out errors, whose clear method releases the cause also then.
- LockOrder.NoDeadlock: covers the paths on which no call reports an error; `y_weak_ref` unrefs an error while it holds the object's lock.
- TypeTables.ExtendList: the entries are copied into a new array as in the code, and the finished list is then a value, since nothing writes to it again.
