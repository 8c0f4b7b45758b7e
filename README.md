# Beformat wipe engine in Dafny

Beformat is an Android app that wipes the free space of the external storage. It works in two phases:

1. The **cleaner** tries to delete every file and directory under the storage root, ignoring the results. It skips entries that are neither files nor directories. Inside a directory it stops at the first child it cannot delete, which leaves that directory and its later children in place.
2. The **filler** writes data files of random size, 10 to 99 buffers of 1 MiB each, into a directory of the app. It stops when the total written plus a 200 MiB reserve reaches the free space measured at the start. After every file it reports the running total, and it stops early when its subscriber cancels.

A small helper decides which runtime permissions were denied.

This project models those three parts and proves their properties:

- `io_util.dfy`, module `IOUtil`: the unit buffer, the volume sizes derived from the file-system statistics, the buffered sink a file is written through, `closeSilently`, and the writer of one random data file.
- `cleaner.dfy`, module `Cleaner`: the file tree and the three deleting methods of the Java class `IOUtil`: the recursive `deleteDirectory`, `deleteFile` and the sweep `cleanExternalStorage` over the storage root.
- `filler.dfy`, module `Filler`: the emitter and the fill loop of `MainActivity.writeData`, with a specification function `FillFrom` of the whole run and lemmas about it.
- `permission_checker.dfy`, module `PermissionChecker`: `checkDeniedPermission` and `hasPermissions`.
- `wrappers.dfy`, module `Wrappers`: `Option`.

Whatever the environment decides is an input of the model:

- the random draw `nextInt(90)` of each file;
- the I/O fault each file meets: none, the file cannot be opened, or the write of buffer `k` throws;
- whether closing the sink throws;
- the moment the subscriber cancels. The `isCancelled` checks are numbered in the order they happen, and the subscriber cancels before check `cancelAt`. From then on every check sees the cancellation;
- the answers of `exists`, `isFile`, `isDirectory`, `list` and `delete` for each entry of the file tree;
- the operating system's answer for each permission.

A run of the fill loop is given as a finite list of file writes. `WriteData` requires that the run ends within that list, either on its guard or on a cancellation. Lemmas state when this holds:

- `FaultFreeWritesFinish`: writes without faults always end the loop.
- `FailingWritesNeverFinish`: writes that all return 0 never end it unless the subscriber cancels. A write returns 0 when its file cannot be opened or when the write of its first buffer throws. A write that throws at a later buffer still counts the buffers before it.

The model follows these behaviours of the code:

- `deleteDirectory` and `deleteFile` return false for a path that does not exist. A missing path is not treated as success.
- A failed write is not fatal. `writeRandomDataFile` swallows the exception and returns the bytes of the buffers written before it, possibly 0, and the loop goes on.
- A file is counted for only its completed buffers, not for its full `randomCount` buffers.
- The reserve is 200 MiB. A comment beside it in the code says 500M.
- File names come from `SystemClock.uptimeMillis()`. The code does not make them unique, so the model claims nothing about names.

## Model

| member | source | states |
|---|---|---|
| `IOUtil.StorageTotalSize` | app/src/main/java/me/relex/beformat/IOUtil.java:83-99 | the volume size is the block size times the block count, and it is zero exactly when one of them is |
| `IOUtil.StorageAvailableSize` | app/src/main/java/me/relex/beformat/IOUtil.java:101-117 | the free space is the block size times the free blocks, and it is zero exactly when one of them is |
| `IOUtil.AvailableWithinTotal` | app/src/main/java/me/relex/beformat/IOUtil.java:83-117 | on a snapshot with no more free blocks than blocks, the free space never exceeds the volume size, and the space in use is a whole number of blocks |
| `IOUtil.Sink.Open` | app/src/main/java/me/relex/beformat/IOUtil.java:123 | a newly opened sink has written no buffer and is open, with the environment's write fault and close answer; a file that cannot be opened never gets a sink |
| `IOUtil.Sink.Write` | app/src/main/java/me/relex/beformat/IOUtil.java:128 | a buffer write either throws (the planned fault) and counts nothing, or adds exactly one buffer |
| `IOUtil.Sink.Close` | app/src/main/java/me/relex/beformat/IOUtil.java:61 | the sink is closed afterwards even when close throws; a second close does not throw |
| `IOUtil.CloseSilently` | app/src/main/java/me/relex/beformat/IOUtil.java:56-65 | does nothing for null; otherwise the sink ends closed with its content unchanged, and a failing close is swallowed (there is no error result) |
| `IOUtil.FileSize` | app/src/main/java/me/relex/beformat/IOUtil.java:121-130 | the bytes counted for one file are a multiple of 1 MiB and at most `randomCount` MiB, at most 99 MiB; with no fault they are exactly `randomCount` MiB, between 10 and 99 MiB; when the file cannot be opened they are 0 |
| `IOUtil.WriteRandomDataFile` | app/src/main/java/me/relex/beformat/IOUtil.java:119-137 | returns `FileSize` for the draw and the fault: with the write of buffer `k` failing it counts exactly the `min(k, randomCount)` buffers written before; it never fails. A sink is opened exactly when the file can be opened, and on every path that sink is closed on return, with exactly the counted buffers written |
| `Cleaner.DeleteDirectory` | app/src/main/java/me/relex/beformat/IOUtil.java:23-43 | returns and removes exactly what `DeleteDir` says; a path that does not exist gives false and removes nothing |
| `Cleaner.RemovedWithin` | app/src/main/java/me/relex/beformat/IOUtil.java:27-42 | a recursive delete removes only the entry itself and paths below it |
| `Cleaner.RemovedWithinAll` | app/src/main/java/me/relex/beformat/IOUtil.java:31-36 | the child loop removes only paths strictly below the directory |
| `Cleaner.DeleteDirResult` | app/src/main/java/me/relex/beformat/IOUtil.java:27-42 | the entry's path is removed only when its own delete succeeded, and then the result is true; a true result without that removal comes only from a throwing delete after at least one child was deleted; a throwing delete of a file or an empty directory gives false |
| `Cleaner.LaterSiblingsUntouched` | app/src/main/java/me/relex/beformat/IOUtil.java:31-35 | after the first failing child the remaining children are never visited: adding more siblings changes neither the result nor what is removed |
| `Cleaner.FailedChildKeepsDirectory` | app/src/main/java/me/relex/beformat/IOUtil.java:31-38 | a directory with a failing child returns false and is itself not deleted |
| `Cleaner.ThrowingDeleteAfterChildrenReportsSuccess` | app/src/main/java/me/relex/beformat/IOUtil.java:27-42 | when every child of a non-empty directory was deleted and the directory's own delete throws, the result is true although the directory stays |
| `Cleaner.DeleteDirComplete` | app/src/main/java/me/relex/beformat/IOUtil.java:23-43 | without exceptions, the result is true exactly when every entry of the tree exists and can be deleted, and then every path of the tree is removed, children before their directory |
| `Cleaner.DeleteChildrenComplete` | app/src/main/java/me/relex/beformat/IOUtil.java:31-36 | without exceptions, the child loop succeeds exactly when every child tree can be deleted, and then removes all of them in order |
| `Cleaner.DeleteFile` | app/src/main/java/me/relex/beformat/IOUtil.java:45-54 | true exactly when the file exists and its delete returns true, which removes exactly that file; false otherwise, including when delete throws |
| `Cleaner.SweepVisitsEveryEntry` | app/src/main/java/me/relex/beformat/IOUtil.java:74-80 | whatever is removed for one top-level entry is removed by the sweep, whatever happened to the entries before it |
| `Cleaner.ErasableEntryIsSwept` | app/src/main/java/me/relex/beformat/IOUtil.java:67-81 | a top-level file or directory that can be deleted entirely is removed entirely, whatever its siblings do |
| `Cleaner.CleanExternalStorage` | app/src/main/java/me/relex/beformat/IOUtil.java:67-81 | removes nothing when the listing is null or empty; otherwise removes what deleteFile does to each file and deleteDirectory does to each directory, in listing order, and skips other entries |
| `Filler.Emitter.IsCancelled` | app/src/main/java/me/relex/beformat/MainActivity.java:77 | each check sees the cancellation exactly when the subscriber cancelled before it, and counts as one check |
| `Filler.Emitter.OnNext` | app/src/main/java/me/relex/beformat/MainActivity.java:82-84 | appends the value to those emitted |
| `Filler.Emitter.OnComplete` | app/src/main/java/me/relex/beformat/MainActivity.java:87 | marks the emitter completed |
| `Filler.WriteData` | app/src/main/java/me/relex/beformat/MainActivity.java:64-89 | emits one progress value per file written, carrying the free space and the running total of the run `Fill` describes; completes exactly when `Completes` holds |
| `Filler.FillLength` | app/src/main/java/me/relex/beformat/MainActivity.java:76-81 | each iteration consumes one file write; a run runs out of given writes only after using all of them |
| `Filler.FillIterations` | app/src/main/java/me/relex/beformat/MainActivity.java:76-81 | every iteration starts only when `totalWriteSize + spaceSize < availableSize` and its check saw no cancellation; it adds exactly the size its write returned |
| `Filler.FillExit` | app/src/main/java/me/relex/beformat/MainActivity.java:76-79 | the loop ends on its guard only once total plus reserve reaches the free space, where equality is enough; it ends on cancellation only when the check sees it, and then no file is written |
| `Filler.FillAccounting` | app/src/main/java/me/relex/beformat/MainActivity.java:69-81 | the total after iteration k is the sum of the sizes returned by the first k+1 writes |
| `Filler.FillMonotone` | app/src/main/java/me/relex/beformat/MainActivity.java:81-84 | the emitted totals never decrease and none is below the starting total |
| `Filler.WrittenWithinReserve` | app/src/main/java/me/relex/beformat/MainActivity.java:68-81 | every total written stays below the free space less 101 MiB, which is the reserve less the largest file |
| `Filler.CompletionCondition` | app/src/main/java/me/relex/beformat/MainActivity.java:86-88 | completion happens exactly when the loop ended on its guard and no check, the one after the loop included, saw a cancellation; a completed run reached the free space; a run that saw the cancellation never completes |
| `Filler.FailingWritesNeverFinish` | app/src/main/java/me/relex/beformat/MainActivity.java:76-85 | a write returning 0 (the file cannot be opened, or its first buffer's write throws) leaves the guard unchanged, so without cancellation no number of such writes ends the loop |
| `Filler.FaultFreeWritesFinish` | app/src/main/java/me/relex/beformat/MainActivity.java:76-85 | fault-free writes add at least 10 MiB each, so enough of them always end the loop |
| `Filler.EqualWrites` | app/src/main/java/me/relex/beformat/MainActivity.java:76-85 | with writes of equal size the loop runs exactly the iterations that start below the free space less the reserve, with totals s, 2s, … |
| `Filler.SixteenFiles` | app/src/main/java/me/relex/beformat/MainActivity.java:68-85 | with 1000 MiB free and 50 buffers per file, exactly 16 files are written, 800 MiB in all, and the run completes; no 17th file starts, because total plus reserve then equals the free space |
| `PermissionChecker.DeniedIndices` | app/src/main/java/me/relex/beformat/PermissionChecker.java:32-37 | the positions whose result is not granted, all of them, ascending, at most as many as the permissions |
| `PermissionChecker.AllGrantedNoneDenied` | app/src/main/java/me/relex/beformat/PermissionChecker.java:32-37 | when every result is granted, no position is denied |
| `PermissionChecker.CheckDeniedPermission` | app/src/main/java/me/relex/beformat/PermissionChecker.java:29-39 | returns the permissions at the denied positions, in request order; never longer than the request; empty when every result is granted; needs a result for every permission |
| `PermissionChecker.HasPermissions` | app/src/main/java/me/relex/beformat/PermissionChecker.java:18-27 | true exactly when every permission is granted, so true for none; it asks about each permission in order and stops at the first denied one |

## Left out

- User interface and lifecycle: `onCreate`, `showProgressView`, `cleanStorage`, `checkPermissions`, `onRequestPermissionsResult`, `onBackPressed` and `onDestroy`. These are view and Android plumbing.
- Reactive streams plumbing: `Flowable.create` with the latest-value backpressure, the `ioToMain` transformers, the disposables and the thread switches. The emitter records every `onNext` call the loop makes. Values that the stream drops under backpressure, or after a cancellation that arrives between a check and `onNext`, are not modelled.
- Reading the free space: the statistics query is replaced by its result, the `availableSize` input of `WriteData`. Its failure, which reaches the subscriber as an error before any value, is not modelled: `WriteData` has no error outcome. The API-level branches between `getBlockSize` and `getBlockSizeLong` are not modelled either, since both give the same number in the model.
- Text formatting: `Formatter.formatFileSize` and the progress string are locale-dependent foreign code. A progress value is modelled as the two byte counts the text is formatted from.
- Random contents and file names: the bytes of each buffer, the buffer array refilled in place, and the `uptimeMillis()` file names. The size of a file does not depend on them.
- `dataDir.mkdirs()` is not modelled. Its result is ignored, and a failure shows up as files that cannot be opened.
- `deleteDirectory(null)`: the `fileDir == null` branch, which returns false, is not modelled. An entry of the tree is a value and cannot be null, and no caller passes null.
- The file system is a tree of fixed answers rather than a mutable store. The effect of a delete is the list of paths whose `delete()` succeeded. Later calls do not see earlier deletions.
- Filler.WriteData: does not model 64-bit `long` overflow of `totalWriteSize + spaceSize`, because sizes are unbounded integers. With a real free space, the total stays below the free space less 101 MiB, so the sum cannot overflow.
- Filler.WriteData: covers only runs that end within the file writes given to it, because a Dafny method must terminate. A run whose writes keep returning 0 and that is never cancelled spins forever in the code, and `FailingWritesNeverFinish` states that instead.
- PermissionChecker.CheckDeniedPermission: requires a result for every permission. The code would throw an index exception when there are fewer results; the platform always passes arrays of equal length.
