# Verified model of the container library's core

This project models the parts of libxdxgpu-container that carry real
invariants, and proves them in Dafny 4.11:

* the rooted path resolver (`do_path_resolve`): a walk over a directory tree
  that follows symbolic links inside a root, on two text buffers that swap
  roles, proved equal to a transition system and refined to a resolver on
  component lists that knows no buffer, descriptor or counter;
* the ld.so.cache reader and the library selector: a binary format with an
  optional old section and alignment, a nested fold with a pluggable
  preference, and in-place compaction of the result;
* mounting: bind mounts recorded in a ledger sized in advance, undone when a
  step fails, inside another mount namespace; and the five other entry points
  that enter that namespace, whose cleanup covers only part of what they mount;
* the application profile: a 64-bit device mask kept in hexadecimal inside a
  text file and extended one bit at a time;
* the life of the service process, the mountinfo and cgroup line parsers, and
  recursive directory creation on a path buffer.

`dafny verify dfyconfig.toml` checks everything.

## Layout

| file | content |
|---|---|
| `CStrings.dfy`, `Paths.dfy` | strsep, strchr, strstr; path_append and path_join, components, renderings |
| `FileTree.dfy`, `Resolver.dfy`, `ResolverLoop.dfy` | the file tree; the resolver as a transition system, its reference and theorems; the loop on its buffers |
| `CacheFormat.dfy`, `CacheSelect.dfy`, `Arrays.dfy`, `Libraries.dfy`, `LibraryLookup.dfy` | the cache file and a writer for it; selection and preferences; string arrays; the library tables; the whole lookup |
| `Schedules.dfy`, `MountTable.dfy`, `Destinations.dfy`, `FileMounts.dfy` | which calls fail; the mount table; destinations as results of the resolver; mount_files and mount_driverstore_files |
| `DriverMount.dfy` | mount_device and nvc_driver_mount |
| `PathMounts.dfy`, `CapabilityMounts.dfy`, `DeviceMounts.dfy` | the helpers for one path; the four MIG entry points; nvc_device_mount |
| `AppProfile.dfy` | update_app_profile, file_read_text, str_join |
| `RpcLifecycle.dfy`, `CgroupFiles.dfy`, `Ancestors.dfy` | rpc_init and rpc_shutdown; the /proc readers; make_ancestors |

## How system calls are modelled

A call that may fail for reasons outside the model is given its fate by a
function on its number (`faults`), so a contract can say both that nothing
fails without a cause and what a failure leaves behind; the result of every
entry point, what it leaves mounted and what it takes off are functions of its
arguments and of that schedule. Files, mount points and processes are values. The path resolver
sees a fixed file tree in which every directory has one parent and no link is
empty; opening the root text yields a directory node or nothing. Mounting
resolves every destination in a tree of its own (a `View`), because earlier
steps may have changed the container. `umount2` with MNT_DETACH fails only when
nothing is mounted on its target. The cache is mapped at a page boundary.

## Where the code differs from what one expects

* After MAXSYMLINKS links the next name looked up in an existing directory fails
  with ELOOP even if it is not a link or does not exist.
  `Resolver.EarlyLimitExactly` says on which walks that differs from charging
  links only, `Resolver.TwentyLinksAreTooMany` gives a path.
* An absolute link target starts one character into its buffer, but path_append
  counts its room from there, so the terminating NUL can lie one byte past the
  buffer. `ResolverLoop.DoPathResolve` says exactly on which walks,
  `ResolverLoop.LongLinkOverruns` gives an input, and
  `ResolverLoop.ShortCallsStayInside` a bound below which it cannot happen.
* An empty libc6 section with nothing behind it is refused
  (`CacheFormat.NewImageOpens`).
* A library under `/opt/xdxgpu` is displaced by one under `/usr/lib` once a
  library from a third directory came in between (`CacheSelect.OptCanLose`);
  `CacheSelect.LibrariesRun` gives the exact rule.
* mount_device unmounts its target even when the bind itself failed, so a mount
  that was there before is lost. `DriverMount.DriverMount` says for which first
  failing call, `DriverMount.SafeUnderEverySchedule` for which arguments and
  mount tables no schedule does it, `DriverMount.LoseMount` runs one that does.
* nvc_driver_mount reports failure with everything mounted, and the process in
  the container's namespace, exactly when everything fits and only the way back
  fails (the `Stranded` clause of `DriverMount.DriverMount`).
* The cleanup of the other entry points forgets mounts: the first instance's
  device node, the capability directory, the front end and dri libraries; and it
  unmounts targets it has not mounted, among them what an unset variable of
  mount_with_flags names. `CapabilityMounts.AccessSafeExactly`,
  `CapabilityMounts.GlobalSafeExactly` and `DeviceMounts.RequestSafeExactly` say
  for which arguments and mount tables no schedule does either; `ForgetNode`,
  `ForgetDirectory`, `LoseStray`, `ForgetFront`, `ForgetDri` and `ForgetFile` run
  schedules that do.
* A minors file that cannot be opened is closed as a null stream
  (`CapabilityMounts.AllowMigCaps`).
* A driver store component named with a dot or two is mounted outside a proper
  name of its directory (`DeviceMounts.StoreIsConfinedExactly`).
* A mask with all 64 bits set reads back as what strtoumax returns on overflow,
  so the next update fails (`AppProfile.ProfileHoldsMinors`).
* An empty profile makes update_app_profile search a null pointer, and a write
  that keeps nothing leaves one (`AppProfile.EmptyExactly`). A profile whose
  reading breaks off after its first bytes is freed twice
  (`AppProfile.BrokenReadExample`); `AppProfile.ProfileFile.Update` says that
  these are the only two crashes.
* After a failed rpc_init that did reap its child the record still names that
  child, and no rpc_shutdown succeeds; `RpcLifecycle.ShutdownCanSucceedExactly`
  shows that this is the only way.
* A line accepted at the end of a file without a final newline is treated as not
  found (`CgroupFiles.NoLineWins`); a mountinfo line with fewer than five blanks
  makes cgroup_mount search a null pointer (`CgroupFiles.CrashExactly`).

## Model

| member | source | states |
|---|---|---|
| `Paths.JoinConcatenates` | src/utils.c:744-768 | Appending one path text to another concatenates their component lists, for every pair of texts, whatever slashes they begin or end with |
| `Paths.JoinSeam` | src/utils.c:757-758 | There is exactly one slash at the seam, whichever side brings it |
| `Paths.AppendExact` | src/utils.c:744-768 | path_append succeeds exactly when the joined text and its NUL fit PATH_MAX, and then concatenates components |
| `Paths.JoinExact` | src/utils.c:770-776 | path_join succeeds exactly when both appends fit, and the result has the components of both parts in order |
| `Paths.PathBuf.Append` | src/utils.c:744-768 | The buffer ends with the joined text, or with as much of it as fits when the call fails |
| `Paths.PathBuf.New` | src/utils.c:737-742 | path_new replaces the buffer's text by the given path, with a leading slash, or fails when it does not fit |
| `Paths.PathBuf.Join` | src/utils.c:770-776 | The buffer holds the join of both paths whenever that exists |
| `Resolver.StepKeepsInv` | src/utils.c:811-886 | Every turn of the loop keeps: the descriptor is the node the resolved path minus its missing names leads to, that node is not a link, the first missing name is absent from it, and everything opened lies below the root |
| `Resolver.StopIsConfined` | src/utils.c:811-886 | A turn that ends in an error has opened nothing outside the root either |
| `Resolver.StepProgresses` | src/utils.c:811-886 | Every turn follows one more link or shortens the pending text: the lexicographic measure that ends the loop |
| `Resolver.EveryLoopHead` | src/utils.c:811-886 | At every loop head of every run the invariant holds and no existing component of the resolved path is a link |
| `Resolver.HeadsFollow` | src/utils.c:811-886 | From every loop head the loop's own heads follow each other turn by turn, to the end or to the turn that fails |
| `Resolver.LoopIsRun` | src/utils.c:811-886 | The loop itself is such a run |
| `Resolver.StepRefines` | src/utils.c:811-886 | One turn leaves the answer of the component-list reference unchanged, or stops with exactly its error, or overflows a buffer |
| `Resolver.RunRefines` | src/utils.c:811-886 | Whenever the loop succeeds its names are the reference's; every failure other than overflow is the reference's |
| `Resolver.PathResolveRefines` | src/utils.c:794-906 | A successful path_resolve returns the rendering of the reference's names, which are canonical and are what the text splits back into |
| `Resolver.FullResultIsConfined` | src/utils.c:888-912 | A successful path_resolve_full has the components of the root followed by proper names that are never empty, dot or dot-dot, whatever the link targets |
| `Resolver.FullResultIsATarget` | src/utils.c:888-912 | A full result is not empty and fits a path buffer |
| `Resolver.ResolveIsIdempotent` | src/utils.c:794-906 | Resolving a result again against the same tree succeeds, follows no link and returns the same text |
| `Resolver.ShortInputsAgreeExactly` | src/utils.c:794-906 | When path and link targets are short enough that no buffer can overflow, path_resolve and the reference agree on every input, errors included |
| `Resolver.FullJoinsRoot` | src/utils.c:888-894 | For every input path_resolve_full is path_resolve with the root joined in front, and fails only with it or because the join is too long |
| `Resolver.ShortInputsAgreeFull` | src/utils.c:888-912 | On short paths and targets the full result is the reference's answer behind the root, exactly if that fits |
| `Resolver.LinksAreTransparent` | src/utils.c:839-858 | A name that is a link stands for its target: a relative one where the link lies, an absolute one at the root |
| `Resolver.PlainNamesAreKept` | src/utils.c:869-881 | A name that is no link, or missing, is kept |
| `Resolver.DotsGoUp` | src/utils.c:812-830 | Two dots leave a directory or a missing place for the one above; at the root, or in a file, they are an error |
| `Resolver.LibIsUsr` | src/utils.c:839-894 | In a container whose lib is a link to usr, the full result for /lib is the container's /usr |
| `Resolver.EarlyLimitIsTheOnlyDifference` | src/utils.c:841-865 | Against a resolver that charges the budget for links only, the code gives the same answer or reports too many links |
| `Resolver.OneMoreLinkIsEnough` | src/utils.c:841-865 | Whatever that resolver decides within b links, the code decides the same within b + 1 |
| `Resolver.EarlyLimitExactly` | src/utils.c:841-865 | The two differ exactly on walks that follow all allowed links, no more, and look up a name at an existing place after the last |
| `Resolver.LoopPathExactly` | src/utils.c:841-865 | On n links followed by a plain file one needs a budget of n, the other of n + 1 |
| `Resolver.TwentyLinksAreTooMany` | src/utils.c:841-865 | path_resolve fails with too many links on a path of twenty links and a plain file |
| `ResolverLoop.ClimbUp` | src/utils.c:815-830 | The dot-dot branch on the real buffers does what the transition system says, or stops when its openat fails |
| `ResolverLoop.AppendName` | src/utils.c:866-874 | Appending a component to the resolved path pushes one name, or overflows exactly when the system does |
| `ResolverLoop.FollowLink` | src/utils.c:839-858 | Writing a target into the free buffer, from its second character if absolute, and splicing the pending text behind it does what the system says; the buffers swap roles and never coincide; the NUL lies past the buffer exactly on an absolute target whose joined length reaches PATH_MAX - 1, accepted or cut |
| `ResolverLoop.ShortWalksStayInside` | src/utils.c:811-886 | No turn of a walk with room for its links and pending text in a path buffer writes past its buffers |
| `ResolverLoop.ShortCallsStayInside` | src/utils.c:794-886 | Nor does a call on a short path with short link targets |
| `ResolverLoop.LongLinkOverruns` | src/utils.c:839-858 | A tree with one absolute link of PATH_MAX - 2 characters, and a path of two names, on which it happens |
| `ResolverLoop.LookUp` | src/utils.c:831-884 | The named-component branch, with its order of checks (too long, too many links, missing, plain, other), does what the system says |
| `ResolverLoop.Turn` | src/utils.c:811-886 | One turn with strsep on the held buffer is one step of the system |
| `ResolverLoop.DoPathResolve` | src/utils.c:778-900 | Without faults the call returns exactly the specified result and tells exactly whether a turn writes past a buffer; any failed system call ends it with an error; every node it opened lies below the root |
| `CacheFormat.LdCache.Open` | src/ldcache.c:61-95 | The file is accepted, and the header position set, exactly as the format function says |
| `CacheFormat.PaddingIsLeast` | src/ldcache.c:76-77 | The padding makes the position a multiple of the header's alignment and is the least that does |
| `CacheFormat.SectionReads` | src/ldcache.c:117-123 | Wherever a libc6 section lies in an image, with its strings at any offsets, in any order, shared or not, the entry loop reads back exactly its flags, keys and values |
| `CacheFormat.NewImageOpens` | src/ldcache.c:61-95 | An image beginning with such a section opens at 0, exactly if anything follows its header |
| `CacheFormat.OldImageOpens` | src/ldcache.c:61-95 | With a libc5 section of any n entries in front, the header is found right behind its padding, aligned, and the entries read back |
| `CacheFormat.OpenExactly` | src/ldcache.c:61-95 | Whatever the file: it is accepted at a place exactly if, there, both magic texts stand and bytes follow the header, at 0 or at the one aligned place behind a libc5 section |
| `CacheFormat.WordsAreLittleEndian` | src/ldcache.c:26-53 | The words of the format are little-endian |
| `CacheFormat.StringsStopAtNul` | src/ldcache.c:121-122 | A key or value is read up to its first NUL |
| `CacheFormat.WrittenIsSection` | src/ldcache.c:26-53 | What the writer produces is such a section |
| `CacheFormat.NewFileRoundTrips` | src/ldcache.c:61-95 | A written file with only a libc6 section opens at offset 0 exactly when it has an entry or trailing bytes, and reads back what was written |
| `CacheFormat.OldFileRoundTrips` | src/ldcache.c:61-95 | The same for a written file with a libc5 section of any n entries in front |
| `CacheSelect.OfferEntry` | src/ldcache.c:126-143 | The inner loop offers the entry to the first prefix-matching slot that does not hold its path yet, and changes at most that slot |
| `CacheSelect.LdcacheResolve` | src/ldcache.c:109-146 | On success every entry could be read and the slots are the left fold over all of them; it fails only when the fold over the entries read so far fails or a copy cannot be made, and leaves the mapping only if an entry leads out of it |
| `CacheSelect.FailureIsTotal` | src/ldcache.c:120-144 | On a well-formed image a failure on some first entries is a failure of the fold over all |
| `CacheSelect.FilledSlotsAreFound` | src/ldcache.c:120-144 | Every filled slot is the resolved value of some entry of the wanted architecture whose key has the library's prefix |
| `CacheSelect.WantedByBytes` | src/ldcache.c:123-124 | An entry is wanted for an architecture exactly if its type byte is odd and its architecture byte is the wanted one |
| `CacheSelect.OthersDoNotCount` | src/ldcache.c:123-124 | All other entries change nothing in a run |
| `CacheSelect.ProvidedIsFound` | src/ldcache.c:126-143 | No library is missed: after a successful run the first library whose name a wanted entry's key begins with has a path |
| `CacheSelect.EachArchitectureItsOwn` | src/ldcache.c:120-144 | A run over one x86_64 and one i386 entry: each architecture finds its own |
| `CacheSelect.SlotIsWinner` | src/ldcache.c:126-143 | Each slot ends as the preference function's verdict on the candidates that reached it, in order, none of which made it fail |
| `CacheSelect.WslWinner` | src/nvc_info.c:160-182 | Under the WSL preference the first /wsl/lib/ candidate wins, else the last candidate |
| `CacheSelect.WslRun` | src/nvc_info.c:160-182 | The same for a slot over a whole run |
| `CacheSelect.LibrariesWinner` | src/nvc_info.c:147-155 | Under the native preference the winner is the last candidate outside /usr/lib if that one is under /opt, and otherwise the last candidate |
| `CacheSelect.LibrariesRun` | src/nvc_info.c:108-158 | The same closed form for every slot over every successful run |
| `CacheSelect.OptBeatsUsr` | src/nvc_info.c:147-155 | Over every successful run, a slot reached only by candidates under /opt or /usr/lib ends with the last /opt one whenever there is one |
| `CacheSelect.OptCanLose` | src/nvc_info.c:147-155 | A run over three entries in which one from a third directory in between lets /usr/lib displace /opt |
| `CacheSelect.DirectoriesAre` | src/nvc_info.c:147-155 | A path under /usr/lib/x86_64-linux-gnu never displaces one under /opt/xdxgpu/lib/x86_64-linux-gnu, and the other way round it does |
| `CacheSelect.WslIsKept` | src/nvc_info.c:171-174 | A path with /wsl/lib/ in it is never displaced under the WSL preference |
| `Arrays.ArrayPack` | src/utils.c:374-390 | The new array is the packing of the old one (kept entries in order, then nulls, tail untouched, same multiset) and the size is the number kept; a null array leaves the size alone |
| `Arrays.PackedShape` | src/utils.c:374-390 | After packing: the non-null entries in order, then nulls, nothing beyond the size touched, and the same multiset |
| `Arrays.FilledPlaces` | src/utils.c:374-390 | Packing drops no entry and keeps order: each non-null entry lands at the number of non-null entries before it |
| `Arrays.ArraySize` | src/utils.c:392-400 | The number of entries before the first null one |
| `Arrays.ArrayAppend` | src/utils.c:356-361 | The entries are copied to the given place and nothing else changes |
| `Arrays.AppendLedger` | src/nvc_mount.c:1019-1021 | Appending a null-terminated list to the ledger records its names behind those already there |
| `Libraries.RequestedAreMountable` | src/nvc_info.c:642-656 | With every library option on, a name passes the mount filter exactly if the lookup asks for it |
| `Libraries.OneOptionOneTable` | src/nvc_info.c:642-656 | Each option alone lets exactly the names of its own table pass, besides those of the dxcore table |
| `Libraries.OptionsAddUp` | src/nvc_info.c:642-656 | A set of options lets a name pass exactly if one of them alone does, or none is needed |
| `Libraries.EachTableHasItsOwn` | src/nvc_info.c:642-656 | One library of the utility, compute, graphics and dxcore tables, in any version: mounted exactly when its option is on, or always |
| `Libraries.VaX11IsVideo` | src/nvc_info.c:651-652 | The X11 library, in any version, is mounted exactly for video |
| `Libraries.BinariesNeedTheirOption` | src/nvc_info.c:634-640 | The one binary is mounted exactly when its option is on |
| `Libraries.RequestedByDxcore` | src/nvc_info.c:309-318 | What is asked for, in order, and what dxcore adds |
| `Libraries.RequestedByOptions` | src/nvc_info.c:309-318 | Without dxcore, exactly the names of the four tables are asked for |
| `LibraryLookup.LookUpArch` | src/nvc_info.c:203-206 | One architecture: the result is the filled slots of the fold, in request order |
| `LibraryLookup.LookUpLibraries` | src/nvc_info.c:184-220 | Resolve the cache's path, open, select for both architectures with the right preference, pack, unmap: the two lists are exactly what the cache's entries select; not finding them has a cause |
| `LibraryLookup.BothArchitecturesAreFound` | src/nvc_info.c:203-214 | A cache with the OpenCL library for both architectures: the two lists hold exactly the two paths |
| `LibraryLookup.PreferenceIs` | src/nvc_info.c:192 | What the two preferences do with any pair, in terms of the directory texts |
| `LibraryLookup.ResolveInIs` | src/ldcache.c:130 | A candidate is resolved as seen from the driver root, without the root in front |
| `MountTable.TargetsOfDetach` | src/nvc_mount.c:682-689 | Unmounting lowers the count of its target by one, unless it is zero |
| `FileMounts.BindFile` | src/nvc_mount.c:134-145 | It succeeds exactly without faults; a failure leaves the counts alone or leaves the one bind it made |
| `FileMounts.MountOne` | src/nvc_mount.c:130-145 | The mount goes from root/path to dir/basename, with the file flags, exactly when both paths fit and nothing fails |
| `FileMounts.MountAndRecord` | src/nvc_mount.c:130-148 | Both buffers are back to their old text after each file, and the target is recorded |
| `FileMounts.RollBack` | src/nvc_mount.c:152-155 | Unmounting the record leaves the counts from before, plus what was mounted without record, minus what was lost |
| `Destinations.Destination` | src/utils.c:888-912 | A destination is what the resolver makes of the path in the container, if anything: not empty, and fitting its buffer |
| `Destinations.DestinationIsUnder` | src/nvc_mount.c:115-116 | Every destination has the components of the container's root followed by proper names |
| `Destinations.ResidueIs` | src/utils.c:888-894 | What a failed path_resolve_full has written: as much of a text too long as fits, exactly if the path itself resolves |
| `FileMounts.MountFiles` | src/nvc_mount.c:104-156 | Success mounts exactly the selected paths in order, each from root/path to its name in the resolved directory, and returns their null-terminated list; failure leaves the counts at entry plus exactly the one bind in flight the schedule determines; the number of calls is known |
| `FileMounts.FlightIsPlanned` | src/nvc_mount.c:138-144 | What is in flight is a planned target |
| `FileMounts.FlightCanHappen` | src/nvc_mount.c:138-144 | Every path the loop reaches is left in flight by the schedule in which only its remount fails |
| `FileMounts.MountDriverStore` | src/nvc_mount.c:158-209 | The same for every file of the driver store |
| `FileMounts.PlanIsUnder` | src/nvc_mount.c:126-145 | A mount the options select stays under the container's root |
| `FileMounts.PlanPlaces` | src/nvc_mount.c:126-148 | Every selected path has its mount, at the number of selected paths before it |
| `FileMounts.PlanHasOnly` | src/nvc_mount.c:126-148 | Nothing else is mounted |
| `FileMounts.SelectedByName` | src/nvc_mount.c:127-129 | A file is selected by what follows its last slash, as a binary or as a library |
| `FileMounts.PlannedLeads` | src/nvc_mount.c:130-143 | Its mount leads from the path below the source to its name below the destination, read-only, without devices or set-user-id programs |
| `DriverMount.BindDevice` | src/nvc_mount.c:236-246 | The node is mounted with the device flags, or the table is as before, or the failed bind cost the target one mount |
| `DriverMount.MountDevice` | src/nvc_mount.c:211-247 | It succeeds exactly when nothing fails, the path resolves and the node is genuine; it loses a mount exactly when the device fits and the bind is the first call to fail |
| `DriverMount.MountGroup` | src/nvc_mount.c:1018-1035 | One file list is mounted and appended to the ledger, or the partial state is accounted for |
| `DriverMount.MountDevices` | src/nvc_mount.c:1077-1097 | The wanted devices are bound and recorded in order; what a failure loses is the target of the one device whose bind is the first call to fail, if there is one |
| `DriverMount.MountInside` | src/nvc_mount.c:997-1103 | The ledger never needs more than its nmnt places; all planned mounts are made, or the counts are those at entry plus one in flight or minus one lost |
| `DriverMount.DriverMount` | src/nvc_mount.c:982-1111 | The result is decided by the arguments and the calls that fail: 0 only in the host's namespace with exactly the planned mounts added, stranded exactly when only the way back fails; the cgroup rules set are those of the wanted devices, or of some first ones; an undone call leaves every count as at entry plus exactly the bind in flight, exactly unless the bind of a device whose target was mounted on is the first call to fail |
| `DriverMount.SafeUnderEverySchedule` | src/nvc_mount.c:236-246 | No schedule of failures makes the call drop a mount, exactly if the files do not fit or no device it gets to bind has its target mounted on at entry |
| `DriverMount.LoseMount` | src/nvc_mount.c:236-246 | For every driver and table where one has, a run of the whole call that ends with that target's count one lower |
| `DriverMount.OneDeviceCanLose` | src/nvc_mount.c:236-246 | A concrete driver with such a device |
| `DriverMount.PlanIsConfined` | src/nvc_mount.c:997-1097 | Every mount the call plans goes to a place under the container's root, whatever the links inside say |
| `DriverMount.DisplayAddsModeset` | src/nvc_mount.c:1084-1090 | The display option adds the modeset device and nothing else; without it that device is never wanted |
| `DriverMount.ComputeAddsOthers` | src/nvc_mount.c:1084-1090 | The compute option adds the devices that are no GPU and nothing else; without it none of them is wanted |
| `DriverMount.AllAreWanted` | src/nvc_mount.c:1081-1090 | Under dxcore, or with both options on, every device is wanted |
| `DriverMount.WantedAreMounted` | src/nvc_mount.c:1080-1102 | The mounts and the cgroup rules are those of the wanted devices in order, each unless its option is off |
| `DriverMount.PlanWithoutDisplay` | src/nvc_mount.c:997-1103 | Over the whole call: without the display option the plan is that of the other devices with it |
| `DriverMount.DevicesWithoutCompute` | src/nvc_mount.c:1077-1103 | Over the whole device loop: without the compute option the devices are the GPUs with it |
| `DriverMount.OptionsSwitchOff` | src/nvc_mount.c:1030-1102 | No 32-bit library, no device and no rule without its option |
| `DriverMount.DeviceMountLeads` | src/nvc_mount.c:219-243 | A device is mounted from its path below the root onto its resolved place, read-only, without programs, but usable |
| `DriverMount.MisfitsAreRefused` | src/nvc_mount.c:219-228 | A node without the expected number, or whose paths do not fit or resolve, is refused; no other |
| `DriverMount.PlanOrder` | src/nvc_mount.c:1017-1097 | The order of the mounts |
| `DriverMount.LeaveNamespace` | src/nvc_mount.c:1100-1107 | After a success the way back decides the result; after an error a failed way back is the assertion's abort |
| `PathMounts.MountPath` | src/nvc_mount.c:461-509 | One path is mounted onto the same path in the container; any failure unmounts what the destination buffer holds, and what that takes off without having mounted it is stated exactly |
| `PathMounts.PathCanLose` | src/nvc_mount.c:505-508 | Whatever the buffer can hold is taken off by the schedule in which only the second call fails |
| `PathMounts.MountWithFlags` | src/nvc_mount.c:80-102 | Success exactly without faults; the bind stays exactly if the first three calls succeed, and what the unset variable names is unmounted exactly if one of the first four fails |
| `PathMounts.MountDirectory` | src/nvc_mount.c:53-63 | The same for a directory of the container, with what stays and what is taken off as exact functions |
| `PathMounts.MountCap` | src/nvc_mount.c:919-948 | A capability's device node is mounted, or undone, or loses a mount exactly when its bind is the first call to fail |
| `PathMounts.PathMountLeads` | src/nvc_mount.c:473-499 | A path is mounted from below the root onto its resolved place, with the given flags |
| `PathMounts.CapsByOptions` | src/nvc_mount.c:926-936 | A capability's node is mounted exactly unless binding is off, and ruled exactly unless cgroups are |
| `CapabilityMounts.MountInstances` | src/nvc_mount.c:1157-1190 | Both instances are mounted, or the cleanup leaves exactly the first one's node if that instance was done, and takes off exactly the stated target |
| `CapabilityMounts.MountAccessCaps` | src/nvc_mount.c:1137-1206 | The result, what stays and what is taken off are decided by the arguments and the calls that fail; 0 only in the host's namespace with the mounts of both instances |
| `CapabilityMounts.AccessSafeExactly` | src/nvc_mount.c:1192-1198 | No schedule forgets a mount exactly if the first node is never mounted; none takes a mount off that was there exactly if no exposed target was mounted on |
| `CapabilityMounts.ForgetNode` | src/nvc_mount.c:1192-1198 | For every other input, a run that leaves the first node mounted and nothing else changed |
| `CapabilityMounts.SomeNodeIsForgotten` | src/nvc_mount.c:1192-1198 | A concrete such input |
| `CapabilityMounts.AccessIsConfined` | src/nvc_mount.c:1157-1186 | Everything it mounts goes under the container's root |
| `CapabilityMounts.AccessPlanIs` | src/nvc_mount.c:1157-1186 | Without the driver the two access files are mounted; with it, each file and then its node, and both nodes are ruled |
| `CapabilityMounts.MountGlobalCaps` | src/nvc_mount.c:1208-1330 | Both global entry points: the result, whether the device directory stays and what is taken off are decided by the arguments and the calls that fail |
| `CapabilityMounts.GlobalSafeExactly` | src/nvc_mount.c:1253-1259 | No schedule forgets the directory exactly if it is never mounted; none takes a mount off that was there exactly if neither the proc target nor what the unset variable names was mounted on |
| `CapabilityMounts.ForgetDirectory` | src/nvc_mount.c:1253-1259 | For every other input, a run that leaves the directory mounted |
| `CapabilityMounts.SomeDirectoryIsForgotten` | src/nvc_mount.c:1253-1259 | A concrete such input, whatever the unset variable names |
| `CapabilityMounts.LoseStray` | src/nvc_mount.c:99-101 | A run that takes off a mount on whatever the unset variable names |
| `CapabilityMounts.GlobalIsConfined` | src/nvc_mount.c:1228-1237 | Everything they mount goes under the container's root |
| `CapabilityMounts.GlobalPlanIs` | src/nvc_mount.c:1228-1237 | The /proc directory is mounted always, the device directory exactly with the driver, each with its flags |
| `CapabilityMounts.AllowMinors` | src/nvc_mount.c:950-980 | One rule for each listed minor of the GPU, in order, up to the first that fails; a crash exactly when the file cannot be opened |
| `CapabilityMounts.AllowMigCaps` | src/nvc_mount.c:1332-1368 | Every outcome, the crash included, by the first failing call; 0 only in the host's namespace with every rule granted |
| `CapabilityMounts.MinorsOfPush` | src/nvc_mount.c:966-973 | Each line of this GPU gives one rule, in order, and no other line gives any |
| `DeviceMounts.MountKept` | src/nvc_mount.c:882-903 | The front end and the dri libraries are mounted; when a step fails exactly what was mounted, or is in flight, stays |
| `DeviceMounts.MountNative` | src/nvc_mount.c:857-917 | A failure undoes the node and the configuration only; what stays and what is taken off are exact functions of the schedule |
| `DeviceMounts.MountRequest` | src/nvc_mount.c:1113-1135 | The result, what stays and what is taken off are decided by the arguments and the calls that fail, native or driver store; 0 only in the host's namespace with the planned mounts |
| `DeviceMounts.RequestSafeExactly` | src/nvc_mount.c:906-911 | No schedule forgets a mount exactly if there is no front end with a step behind it and no library or store file the loop reaches; none takes a mount off that was there exactly if no exposed target was mounted on |
| `DeviceMounts.ForgetFront` | src/nvc_mount.c:888-892 | A run that leaves the front end mounted |
| `DeviceMounts.ForgetDri` | src/nvc_mount.c:893-900 | A run that leaves a dri library mounted, for every library the loop reaches |
| `DeviceMounts.ForgetFile` | src/nvc_mount.c:797-824 | A run that leaves a file of the driver store mounted |
| `DeviceMounts.SomeFileIsForgotten` | src/nvc_mount.c:797-824 | A concrete such store |
| `DeviceMounts.NativeIsConfined` | src/nvc_mount.c:875-900 | Everything the native call mounts goes under the container's root |
| `DeviceMounts.RecordedPlanIs` | src/nvc_mount.c:875-882 | The loader configuration is mounted always, the node unless binding is off |
| `DeviceMounts.KeptPlanIs` | src/nvc_mount.c:888-900 | The front end is mounted exactly with the utility option, the dri libraries exactly with the video or the graphics option |
| `DeviceMounts.StoreIsConfinedExactly` | src/nvc_mount.c:181-187 | The store's files stay under the root exactly if none is named with a dot or two |
| `AppProfile.BitOfSetBit` | src/nvc_mount.c:321-337 | Setting a bit sets that bit and no other |
| `AppProfile.SetBitAdds` | src/nvc_mount.c:321-337 | A bit not yet set adds its power of two to the mask; one already set adds nothing |
| `AppProfile.HexRoundTrip` | src/nvc_mount.c:330-337 | Printing and parsing hexadecimal cancel, up to saturation, whatever non-digit follows |
| `AppProfile.ProfileRoundTrip` | src/nvc_mount.c:316-337 | The first 0x in a profile is its mask, and the text parses to the mask it was written with |
| `AppProfile.DigitsAreUsual` | src/nvc_mount.c:330-337 | The digits are the usual ones, and both cases are read |
| `AppProfile.MaskIsTheSetting` | src/nvc_mount.c:316-319 | The mask stands between the setting's name and the closing bracket |
| `AppProfile.AnyMaskIsUpdated` | src/nvc_mount.c:328-337 | A text with a mask, whoever wrote it, becomes the profile of that mask and the device's bit, unless the mask is full |
| `AppProfile.NoMaskNoUpdate` | src/nvc_mount.c:328-332 | A text without a mask makes the call fail |
| `AppProfile.ProfileHoldsMinors` | src/nvc_mount.c:321-341 | After any sequence of calls from no file the text holds exactly the OR of their bits, and a call fails exactly when all 64 bits were already set |
| `AppProfile.MaskBits` | src/nvc_mount.c:321-337 | The mask has exactly the bits of the minors seen |
| `AppProfile.SameMinorsSameFile` | src/nvc_mount.c:321-341 | The same devices in any order, with any repeats, leave the same file |
| `AppProfile.FileReadText` | src/utils.c:693-720 | Reading in chunks returns the whole text, and a null pointer for an empty file; a read that breaks off leaves a pointer to a freed text exactly if bytes were read |
| `AppProfile.ProfileFile.Update` | src/nvc_mount.c:306-348 | One call on any file: a crash exactly on an existing empty file that is read to its end, or on a text whose reading breaks off after its first bytes; success exactly when nothing fails and the mask is not full; and the file afterwards in every case |
| `AppProfile.EmptyExactly` | src/nvc_mount.c:340-341 | A call leaves an empty file exactly if it found one or its write kept nothing |
| `AppProfile.FailuresLeave` | src/nvc_mount.c:322-347 | Each way to fail leaves the file as it was, unless the write began, and then a first part of the new text |
| `AppProfile.CrashExample` | src/nvc_mount.c:320-328 | Such a write, and the crash of the next call |
| `AppProfile.BrokenReadExample` | src/utils.c:714-717 | A second call whose read breaks off crashes, whatever the devices |
| `RpcLifecycle.Rpc.ReapProcess` | src/rpc.c:106-137 | It succeeds exactly when some wait gets the child, which is then no longer unreaped |
| `RpcLifecycle.ReapingByAnswers` | src/rpc.c:113-127 | What each answer of wait, poll and kill leads to: a child that exited, hangs up in time or is killed is reaped; a failing poll, kill or wait fails |
| `RpcLifecycle.InitByAnswers` | src/rpc.c:145-170 | What each outcome of socketpair, fork and setup leads to; 0 exactly if the record is in use afterwards |
| `RpcLifecycle.ShutdownByAnswers` | src/rpc.c:173-187 | 0 exactly if the child is reaped, and then the record is reset; otherwise nothing changes |
| `RpcLifecycle.HangUpShutsDown` | src/rpc.c:117-127 | A service that closes its socket in time is shut down |
| `RpcLifecycle.Rpc.Init` | src/rpc.c:139-171 | The record and the children after rpc_init, on every outcome |
| `RpcLifecycle.Rpc.Shutdown` | src/rpc.c:173-187 | The record and the children after rpc_shutdown, on every outcome |
| `RpcLifecycle.GoodStep` | src/rpc.c:139-187 | From a state where exactly the record's child is unreaped while the record is in use, and none otherwise, the next state is one again exactly if a failing rpc_init reaps what it forked |
| `RpcLifecycle.AtMostOneChild` | src/rpc.c:139-187 | Over every run in which failing rpc_init calls reap, exactly the record's child is unreaped while the record is in use, and none otherwise |
| `RpcLifecycle.ShutdownLeavesNone` | src/rpc.c:173-187 | rpc_shutdown returning 0 then means no child is left |
| `RpcLifecycle.SecondChildExactly` | src/rpc.c:139-171 | Exactly when a second unreaped child appears |
| `RpcLifecycle.LeakExample` | src/rpc.c:145-170 | A possible run: a failed reap followed by another rpc_init leaves two children |
| `RpcLifecycle.ShutdownCanSucceedExactly` | src/rpc.c:162-187 | After rpc_init some answer of the kernel lets rpc_shutdown succeed, exactly if rpc_init did not fail after forking and reap its child |
| `RpcLifecycle.StalePidLasts` | src/rpc.c:162-187 | After such a failure no sequence of rpc_shutdown calls succeeds or changes anything |
| `CgroupFiles.TakeTokens` | src/cgroup_legacy.c:100-106 | The strsep loops give the n-th token and what follows it |
| `CgroupFiles.CgroupMount` | src/cgroup_legacy.c:95-122 | The parser's verdict on any line |
| `CgroupFiles.MountRoundTrip` | src/cgroup_legacy.c:95-122 | The parser undoes the mountinfo printer: it accepts exactly the good lines and returns their mount point and root |
| `CgroupFiles.GoodMountByField` | src/cgroup_legacy.c:110-120 | What makes a mount usable, field by field: type cgroup, options naming the subsystem, a root that does not lead up |
| `CgroupFiles.Cgroup2IsRejected` | src/cgroup_legacy.c:114-115 | The version 2 file system is never taken, whatever its options |
| `CgroupFiles.CrashExactly` | src/cgroup_legacy.c:100-103 | The null pointer is searched exactly on lines with fewer than five blanks |
| `CgroupFiles.CgroupRoot` | src/cgroup_legacy.c:124-169 | The parser's verdict on any line and prefix |
| `CgroupFiles.CgroupRoundTrip` | src/cgroup_legacy.c:124-169 | The parser undoes the cgroup printer; colons in the path survive |
| `CgroupFiles.GoodCgroupByField` | src/cgroup_legacy.c:147-161 | What makes a cgroup line acceptable, field by field |
| `CgroupFiles.StrippedJoins` | src/cgroup_legacy.c:162-166 | The prefix and the stripped path make up the path again |
| `CgroupFiles.ParseProcFile` | src/cgroup_legacy.c:171-205 | The line loop computes the verdict on the whole text |
| `CgroupFiles.FirstLineWins` | src/cgroup_legacy.c:182-189 | The first non-empty line the parser does not reject decides, whatever follows |
| `CgroupFiles.NoLineWins` | src/cgroup_legacy.c:190-197 | If no full line decides, an unterminated last line is never accepted |
| `CgroupFiles.FirstUsableMount` | src/cgroup_legacy.c:54-55 | On a printed mount table the first usable cgroup mount is found |
| `CgroupFiles.FirstListedCgroup` | src/cgroup_legacy.c:58-59 | On a printed cgroup list the first listed controller's path is found, less the mount's root |
| `CgroupFiles.FindDeviceCgroupPath` | src/cgroup_legacy.c:39-68 | The result combines the two verdicts; a crash exactly when the first parser crashes |
| `CgroupFiles.FoundOnPrintedFiles` | src/cgroup_legacy.c:39-68 | On the files as the kernel prints them: prefix, mount point, and the path of the first listed group less the mount's root |
| `Ancestors.CutAtSlash` | src/utils.c:504-509 | Cutting the buffer at its last slash gives the path one level up, and writing the slash back restores it |
| `Ancestors.MakeAncestors` | src/utils.c:488-512 | On success the buffer is as it was and exactly the needed directories were created in order; it fails only with cause, and then the first of them were created, and the buffer holds a prefix of the path with only slashes overwritten |
| `Ancestors.NeededIsMissing` | src/utils.c:488-512 | For an absolute path those are precisely its missing levels, shortest first, and the call gives up exactly when a level is not a directory |
| `Ancestors.EveryLevelIsDirectory` | src/utils.c:488-512 | Afterwards every level is a directory |
| `Ancestors.RelativePaths` | src/utils.c:494-511 | Nothing is created for the root or a path beginning with a dot; a single name is created where it is |
| `Ancestors.RelativeLevels` | src/utils.c:504-511 | For a relative path of two names the first is created before the second, unless it is there |

## Left out

- Open descriptor counts of the resolver, and what lies behind a buffer that a NUL is written past.
- A file system that changes during one walk, and per-component name length limits.
- NUL bytes inside texts: a C string is its characters.
- AppProfile.ProfileFile.Update: a minor of 64 or more is not covered, because the shift is undefined.
- CacheSelect.LdcacheResolve: what the source reads outside the mapping is not modelled; an entry without terminated strings inside it ends the scan, even where the source would not have looked at them.
- CacheSelect and LibraryLookup use the x86_64 directories and architectures only.
- MountTable.TargetsOfDetach: umount2 with MNT_DETACH also takes off what is mounted below its target; mounts are not nested in the model.
- Ancestors.MakeAncestors: nodes are known by their text, so two spellings of one directory, as with a doubled slash, are two nodes.
- PathMounts.MountWithFlags: the unset variable is null or a text; that it may be no pointer at all is not modelled.
- DeviceMounts.MountNative: the search for dri libraries is one step and a list; the size of the array it fills is not modelled.
- CapabilityMounts.AllowMinors: the lines of the minors file are given as the numbers sscanf finds in them.
- umount2 failing on an existing mount, and what file_remove deletes afterwards.
- symlink_libraries is one step that may fail; filter_libraries is the list it leaves, because its version string is never set.
- The sockets, the RPC client handle and signals of struct rpc, and everything the service process itself does.
- Read errors in the middle of a /proc file, and the formatting of the two /proc paths.
- Permissions, owners and modes of created files; file_create around make_ancestors.
- mount_procfs, mount_procfs_gpu, mount_ipc, mount_app_profile and mount_firmware, which nothing calls.
- Capability sets and bounds, driver queries over RPC, dxcore, ELF inspection, ldconfig sandboxing, option parsing, logging and error texts.
