/**
 * The admin upload page: which dropped files are queued, the storage path each upload gets,
 * the size an image is scaled to before it is stored, the progress entries the page shows and
 * how each upload moves them, and the buttons that remove entries.
 *
 * The browser (image decoding, canvas, JPEG encoding) and the storage service are not modelled:
 * what they answer for each file is a parameter (an Attempt).
 */
module Upload {
  import opened Wrappers
  import opened Seqs
  import opened Records
  import Text

  const MaxWidth: nat := 2048
  const MaxHeight: nat := 2048

  datatype File = File(name: string, mimeType: string)

  /** `file.type.startsWith('image/')` */
  predicate IsImageFile(f: File) {
    "image/" <= f.mimeType
  }

  datatype Status = Pending | Uploading | Success | Error

  datatype UploadProgress = UploadProgress(fileName: string, progress: int, status: Status, error: Option<string>)

  /** The entry handleFiles shows for a file it has just queued. */
  function PendingEntry(f: File): UploadProgress {
    UploadProgress(f.name, 0, Pending, None)
  }

  /** `imageFiles.map(...)`: one pending entry per file, in order. */
  function QueuedEntries(files: seq<File>): (r: seq<UploadProgress>)
    ensures |r| == |files|
    ensures forall i :: 0 <= i < |r| ==> r[i] == PendingEntry(files[i])
    decreases |files|
  {
    if files == [] then [] else [PendingEntry(files[0])] + QueuedEntries(files[1..])
  }

  // ----- Storage path -----

  /** The characters the file-name sanitiser keeps: `[a-zA-Z0-9.-]`. */
  predicate AllowedChar(c: char) {
    ('a' <= c <= 'z') || ('A' <= c <= 'Z') || ('0' <= c <= '9') || c == '.' || c == '-'
  }

  /** The characters a sanitised name can hold: the allowed ones and the '_' put in for the rest. */
  predicate SafeChar(c: char) {
    AllowedChar(c) || c == '_'
  }

  /** `name.replace(/[^a-zA-Z0-9.-]/g, '_')`: every other character becomes '_', one for one. */
  function SanitizeFileName(name: string): (safe: string)
    ensures |safe| == |name|
    ensures forall i :: 0 <= i < |safe| ==> SafeChar(safe[i])
    ensures forall i :: 0 <= i < |name| && AllowedChar(name[i]) ==> safe[i] == name[i]
    ensures forall i :: 0 <= i < |name| && !AllowedChar(name[i]) ==> safe[i] == '_'
    decreases |name|
  {
    if name == [] then []
    else
      var rest := SanitizeFileName(name[1..]);
      assert forall i :: 1 <= i < |name| ==> name[1..][i - 1] == name[i];
      [if AllowedChar(name[0]) then name[0] else '_'] + rest
  }

  /** A name that is already safe is left alone; in particular sanitising is idempotent. */
  lemma SanitizeKeepsSafeNames(name: string)
    requires forall i :: 0 <= i < |name| ==> SafeChar(name[i])
    ensures SanitizeFileName(name) == name
  {
  }

  /** `s.lastIndexOf(c)`: the last position holding c, or -1 when there is none. */
  function LastIndexOf(s: string, c: char): (r: int)
    ensures -1 <= r < |s|
    ensures r >= 0 ==> s[r] == c
    ensures forall i :: r < i < |s| ==> s[i] != c
    decreases |s|
  {
    if s == [] then -1
    else if s[|s| - 1] == c then |s| - 1
    else LastIndexOf(s[..|s| - 1], c)
  }

  /** The sanitised name without its extension: everything before the last '.', or the whole
      name when it has no '.'. */
  function BaseName(safe: string): (base: string)
    ensures |base| <= |safe| && base == safe[..|base|]
    ensures '.' !in safe ==> base == safe
    ensures '.' in safe ==> |base| < |safe| && safe == base + ['.'] + safe[|base| + 1..]
                            && '.' !in safe[|base| + 1..]
  {
    var dot := LastIndexOf(safe, '.');
    if dot != -1 then safe[..dot] else safe
  }

  /** The object's name inside its category folder: `${timestamp}_${base}.jpg`. */
  function ObjectName(timestamp: nat, fileName: string): string {
    Text.NatToString(timestamp) + "_" + BaseName(SanitizeFileName(fileName)) + ".jpg"
  }

  /** `${category}/${timestamp}_${base}.jpg` */
  function StoragePath(category: Category, timestamp: nat, fileName: string): string {
    category.Slug() + "/" + ObjectName(timestamp, fileName)
  }

  /** An object name holds no '/', so every upload lands directly in its category's folder; it
      is the timestamp's digits, '_', and the sanitised base name, and it ends in ".jpg"; the
      timestamp reads back from its digits. */
  lemma ObjectNameShape(timestamp: nat, fileName: string)
    ensures var name := ObjectName(timestamp, fileName);
            var digits := Text.NatToString(timestamp);
            && '/' !in name
            && |name| > |digits| + 4
            && name[..|digits|] == digits && name[|digits|] == '_'
            && Text.ParseDigits(name[..|digits|]) == timestamp
            && name[|name| - 4..] == ".jpg"
  {
    var digits := Text.NatToString(timestamp);
    var safe := SanitizeFileName(fileName);
    var base := BaseName(safe);
    var name := ObjectName(timestamp, fileName);
    assert name == digits + ("_" + base + ".jpg");
    assert name[..|digits|] == digits;
    assert forall i :: 0 <= i < |base| ==> base[i] == safe[i];
    assert '/' !in base;
    assert '/' !in digits by {
      assert forall i :: 0 <= i < |digits| ==> Text.IsDigit(digits[i]);
    }
    Text.ParseNatToString(timestamp);
  }

  /** The category slugs hold no '/', so the folder of a storage path is its category's slug. */
  lemma StoragePathFolder(category: Category, timestamp: nat, fileName: string)
    ensures var path := StoragePath(category, timestamp, fileName);
            var slug := category.Slug();
            && '/' !in slug
            && path[..|slug|] == slug && path[|slug|] == '/'
            && path[|slug| + 1..] == ObjectName(timestamp, fileName)
  {
    SlugHasNoSlash(category);
    JoinedPath(category.Slug(), ObjectName(timestamp, fileName));
  }

  lemma SlugHasNoSlash(category: Category)
    ensures '/' !in category.Slug()
  {
    match category
    case Track =>
    case Soccer =>
    case Football =>
    case Basketball =>
    case BestOf =>
  }

  /** `folder + "/" + name` splits back into the folder and the name. */
  lemma JoinedPath(folder: string, name: string)
    ensures var path := folder + "/" + name;
            path[..|folder|] == folder && path[|folder|] == '/' && path[|folder| + 1..] == name
  {
    var path := folder + "/" + name;
    assert path == folder + ("/" + name);
  }

  // ----- Dimensions -----

  /** The size compressImage draws at, over exact reals. A picture that fits in
      MaxWidth x MaxHeight keeps its size; otherwise the longer side (the width only when it
      is strictly longer) becomes the maximum and the other side keeps the aspect ratio.
      The ratio is applied by cross-multiplication, so a zero side needs no special case. */
  function FitWithin(width: nat, height: nat): (real, real) {
    if width > MaxWidth || height > MaxHeight then
      if width > height then (MaxWidth as real, MaxWidth as real * height as real / width as real)
      else (MaxHeight as real * width as real / height as real, MaxHeight as real)
    else (width as real, height as real)
  }

  /** The scaled size fits, keeps the aspect ratio (as a cross product, so it also holds when a
      side is zero), is the natural size when that already fits, and otherwise puts the longer
      side at the maximum. */
  lemma FitWithinContract(width: nat, height: nat)
    ensures var r := FitWithin(width, height);
            && (width <= MaxWidth && height <= MaxHeight ==> r == (width as real, height as real))
            && 0.0 <= r.0 <= MaxWidth as real && 0.0 <= r.1 <= MaxHeight as real
            && r.0 * height as real == r.1 * width as real
            && ((width > MaxWidth || height > MaxHeight) && width > height ==> r.0 == MaxWidth as real)
            && ((width > MaxWidth || height > MaxHeight) && width <= height ==> r.1 == MaxHeight as real)
  {
    if width > MaxWidth || height > MaxHeight {
      var w, h, max := width as real, height as real, MaxWidth as real;
      if width > height {
        ScaledSideBound(max, h, w);
        assert FitWithin(width, height) == (max, max * h / w);
      } else {
        ScaledSideBound(max, w, h);
        assert FitWithin(width, height) == (max * w / h, max);
      }
    }
  }

  /** Scaling the shorter side by max / longer keeps it within [0, max]. */
  lemma ScaledSideBound(max: real, shorter: real, longer: real)
    requires 0.0 <= max && 0.0 <= shorter <= longer && 0.0 < longer
    ensures 0.0 <= max * shorter / longer <= max
    ensures (max * shorter / longer) * longer == max * shorter
  {
    var q := max * shorter / longer;
    assert max * shorter <= max * longer;
    assert max - q == (max * longer - max * shorter) / longer;
  }

  /** compressImage's size computation: `width` and `height` start at the natural size and
      are reassigned when it does not fit. */
  method ScaleDimensions(naturalWidth: nat, naturalHeight: nat) returns (width: real, height: real)
    ensures (width, height) == FitWithin(naturalWidth, naturalHeight)
  {
    width := naturalWidth as real;
    height := naturalHeight as real;
    if width > MaxWidth as real || height > MaxHeight as real {
      if width > height {
        width := MaxWidth as real;
        height := width * naturalHeight as real / naturalWidth as real;
      } else {
        height := MaxHeight as real;
        width := height * naturalWidth as real / naturalHeight as real;
      }
    }
  }

  /** What the browser does with one file: it fails to decode it, or decodes it to a natural
      size, with or without a 2D canvas context, and encodes it to JPEG or not. */
  datatype ImageLoad = LoadFailed | Loaded(width: nat, height: nat, hasContext: bool, encoded: bool)

  datatype Compressed = Compressed(width: int, height: int) | CompressFailed(message: string)

  /** compressImage's answer: the floored scaled size, or the message of the Error it rejects with. */
  function Compress(load: ImageLoad): Compressed {
    match load
    case LoadFailed => CompressFailed("Failed to load image")
    case Loaded(w, h, hasContext, encoded) =>
      if !hasContext then CompressFailed("Failed to get canvas context")
      else if !encoded then CompressFailed("Failed to compress image")
      else
        var size := FitWithin(w, h);
        Compressed(size.0.Floor, size.1.Floor)
  }

  /** compressImage rejects with the message of the step that failed; when it resolves, the size
      is the scaled size rounded down, so within the maximum, and a picture that already fits
      keeps its exact size. */
  lemma CompressContract(load: ImageLoad)
    ensures var r := Compress(load);
            && (load.LoadFailed? ==> r == CompressFailed("Failed to load image"))
            && (load.Loaded? && !load.hasContext ==> r == CompressFailed("Failed to get canvas context"))
            && (load.Loaded? && load.hasContext && !load.encoded ==> r == CompressFailed("Failed to compress image"))
            && (r.Compressed? <==> load.Loaded? && load.hasContext && load.encoded)
            && (r.Compressed? ==> && 0 <= r.width <= MaxWidth && 0 <= r.height <= MaxHeight
                                  && r.width as real <= FitWithin(load.width, load.height).0 < r.width as real + 1.0
                                  && r.height as real <= FitWithin(load.width, load.height).1 < r.height as real + 1.0)
            && (r.Compressed? && load.width <= MaxWidth && load.height <= MaxHeight ==>
                  r.width == load.width && r.height == load.height)
  {
    if load.Loaded? {
      FitWithinContract(load.width, load.height);
    }
  }

  /** compressImage, with the browser's answers given. */
  method CompressImage(load: ImageLoad) returns (r: Compressed)
    ensures r == Compress(load)
  {
    if load.LoadFailed? {
      return CompressFailed("Failed to load image");
    }
    var width, height := ScaleDimensions(load.width, load.height);
    if !load.hasContext {
      return CompressFailed("Failed to get canvas context");
    }
    if !load.encoded {
      return CompressFailed("Failed to compress image");
    }
    r := Compressed(width.Floor, height.Floor);
  }

  // ----- One upload -----

  /** What the storage service answers: done, or a failure carrying the message of the Error
      it throws (None when what it throws is not an Error). */
  datatype ServiceResult = Done | Rejected(message: Option<string>)

  /** Everything outside the page that one file's upload depends on. */
  datatype Attempt = Attempt(image: ImageLoad, timestamp: nat, storage: ServiceResult, insert: ServiceResult)

  /** The text shown for a failure: the Error's message, or 'Upload failed'. */
  function ErrorMessage(message: Option<string>): string {
    message.GetOr("Upload failed")
  }

  /** The row inserted into the images table for a stored file. */
  datatype ImageInsert = ImageInsert(storagePath: string, category: string, width: int, height: int, order: int, visibility: string)

  /** One `setUploads` call on the entry of an upload. */
  datatype Step = Begin | Reached(progress: int) | Succeeded | Failed(message: string)

  function ApplyStep(e: UploadProgress, s: Step): UploadProgress {
    match s
    case Begin => e.(status := Uploading, progress := 0)
    case Reached(p) => e.(progress := p)
    case Succeeded => e.(status := Success, progress := 100)
    case Failed(m) => e.(status := Error, error := Some(m))
  }

  function ApplySteps(e: UploadProgress, steps: seq<Step>): UploadProgress
    decreases |steps|
  {
    if steps == [] then e else ApplyStep(ApplySteps(e, steps[..|steps| - 1]), steps[|steps| - 1])
  }

  lemma ApplyStepsSnoc(e: UploadProgress, steps: seq<Step>, s: Step)
    ensures ApplySteps(e, steps + [s]) == ApplyStep(ApplySteps(e, steps), s)
  {
    assert (steps + [s])[..|steps|] == steps;
  }

  /** No step changes an entry's file name. */
  lemma {:induction false} ApplyStepsKeepsName(e: UploadProgress, steps: seq<Step>)
    ensures ApplySteps(e, steps).fileName == e.fileName
    decreases |steps|
  {
    if steps != [] {
      ApplyStepsKeepsName(e, steps[..|steps| - 1]);
    }
  }

  /** `updated[index] = {...updated[index], ...}` for each step, when the index is in range. */
  function PatchSteps(list: seq<UploadProgress>, index: int, steps: seq<Step>): (r: seq<UploadProgress>)
    ensures |r| == |list|
  {
    if 0 <= index < |list| then list[index := ApplySteps(list[index], steps)] else list
  }

  /** What uploading one file does: the entry updates, the files stored, the rows inserted. */
  datatype Effects = Effects(steps: seq<Step>, stored: seq<string>, rows: seq<ImageInsert>)

  /** The body of handleFiles's loop for one file, once compressImage has answered `c`. */
  function Outcome(category: Category, file: File, c: Compressed, a: Attempt): Effects {
    match c
    case CompressFailed(m) => Effects([Begin, Failed(m)], [], [])
    case Compressed(w, h) =>
      var path := StoragePath(category, a.timestamp, file.name);
      if a.storage.Rejected? then
        Effects([Begin, Reached(25), Failed(ErrorMessage(a.storage.message))], [], [])
      else if a.insert.Rejected? then
        Effects([Begin, Reached(25), Reached(75), Failed(ErrorMessage(a.insert.message))], [path], [])
      else
        Effects([Begin, Reached(25), Reached(75), Succeeded], [path],
                [ImageInsert(path, category.Slug(), w, h, 0, "draft")])
  }

  /** The body of handleFiles's loop for one file, as the effects it has. */
  function Pipeline(category: Category, file: File, a: Attempt): Effects {
    Outcome(category, file, Compress(a.image), a)
  }

  /** True when compression, storage and the insert all succeed. */
  predicate AllSucceed(c: Compressed, a: Attempt) {
    c.Compressed? && a.storage.Done? && a.insert.Done?
  }

  /** A file whose upload fully succeeds goes uploading at 0, then 25, then 75, and ends as
      success at 100 with its name kept; the file is stored under its storage path, and one
      draft row for that path, at order 0 with the compressed size, is inserted for it. */
  lemma OutcomeSucceeds(category: Category, file: File, c: Compressed, a: Attempt, e: UploadProgress)
    requires AllSucceed(c, a)
    ensures var eff := Outcome(category, file, c, a);
            var path := StoragePath(category, a.timestamp, file.name);
            && eff.steps == [Begin, Reached(25), Reached(75), Succeeded]
            && ApplySteps(e, eff.steps) == e.(status := Success, progress := 100)
            && eff.stored == [path]
            && eff.rows == [ImageInsert(path, category.Slug(), c.width, c.height, 0, "draft")]
  {
    assert [] + [Begin] == [Begin];
    assert [Begin] + [Reached(25)] == [Begin, Reached(25)];
    assert [Begin, Reached(25)] + [Reached(75)] == [Begin, Reached(25), Reached(75)];
    assert [Begin, Reached(25), Reached(75)] + [Succeeded] == [Begin, Reached(25), Reached(75), Succeeded];
    ApplyStepsSnoc(e, [], Begin);
    ApplyStepsSnoc(e, [Begin], Reached(25));
    ApplyStepsSnoc(e, [Begin, Reached(25)], Reached(75));
    ApplyStepsSnoc(e, [Begin, Reached(25), Reached(75)], Succeeded);
  }

  /** A file whose upload fails anywhere starts as uploading and ends as an error with a
      message, its name kept, and no row is inserted for it. */
  lemma OutcomeFails(category: Category, file: File, c: Compressed, a: Attempt, e: UploadProgress)
    requires !AllSucceed(c, a)
    ensures var eff := Outcome(category, file, c, a);
            && |eff.steps| >= 2 && eff.steps[0] == Begin
            && ApplySteps(e, eff.steps).status == Error
            && ApplySteps(e, eff.steps).error.Some?
            && ApplySteps(e, eff.steps).fileName == e.fileName
            && eff.rows == []
  {
    var eff := Outcome(category, file, c, a);
    if c.CompressFailed? {
      assert eff == Effects([Begin, Failed(c.message)], [], []);
    } else if a.storage.Rejected? {
      assert eff == Effects([Begin, Reached(25), Failed(ErrorMessage(a.storage.message))], [], []);
    } else {
      assert eff.steps == [Begin, Reached(25), Reached(75), Failed(ErrorMessage(a.insert.message))];
      assert eff.rows == [];
    }
    EndsFailed(e, eff.steps);
  }

  /** Updates whose last one is a failure leave the entry as an error with a message. */
  lemma EndsFailed(e: UploadProgress, steps: seq<Step>)
    requires |steps| >= 1 && steps[|steps| - 1].Failed?
    ensures ApplySteps(e, steps).status == Error && ApplySteps(e, steps).error.Some?
    ensures ApplySteps(e, steps).fileName == e.fileName
  {
    var init := steps[..|steps| - 1];
    assert steps == init + [steps[|steps| - 1]];
    ApplyStepsSnoc(e, init, steps[|steps| - 1]);
    ApplyStepsKeepsName(e, steps);
  }

  /** What the loop body does for each file, in order. */
  function EffectsOf(category: Category, files: seq<File>, attempts: seq<Attempt>): (r: seq<Effects>)
    requires |files| == |attempts|
    ensures |r| == |files|
  {
    seq(|files|, i requires 0 <= i < |files| => Pipeline(category, files[i], attempts[i]))
  }

  /** The entries after the loop body has run for the first n files, the i-th file's updates
      aimed at index start + i. */
  function AfterFiles(list: seq<UploadProgress>, start: int, effs: seq<Effects>, n: nat): (r: seq<UploadProgress>)
    requires n <= |effs|
    ensures |r| == |list|
  {
    if n == 0 then list
    else PatchSteps(AfterFiles(list, start, effs, n - 1), start + n - 1, effs[n - 1].steps)
  }

  /** The stored paths after the first n files, starting from `init`. */
  function StoredBy(init: seq<string>, effs: seq<Effects>, n: nat): seq<string>
    requires n <= |effs|
  {
    if n == 0 then init else StoredBy(init, effs, n - 1) + effs[n - 1].stored
  }

  /** The inserted rows after the first n files, starting from `init`. */
  function RowsBy(init: seq<ImageInsert>, effs: seq<Effects>, n: nat): seq<ImageInsert>
    requires n <= |effs|
  {
    if n == 0 then init else RowsBy(init, effs, n - 1) + effs[n - 1].rows
  }

  /** When the queued entries start where the index base says (the page had rendered the
      current list), the first n files' updates land on their own entries: the earlier
      entries and those of later files are untouched. */
  /** Folding n files' updates over a list patches entries start .. start+n-1, each once with
      its own file's updates, and leaves every other entry as it was. */
  lemma {:induction false} AfterFilesEntries(list: seq<UploadProgress>, start: nat, effs: seq<Effects>, n: nat)
    requires n <= |effs| && start + n <= |list|
    ensures var r := AfterFiles(list, start, effs, n);
            && (forall j :: start <= j < start + n ==> r[j] == ApplySteps(list[j], effs[j - start].steps))
            && (forall j :: 0 <= j < |list| && !(start <= j < start + n) ==> r[j] == list[j])
  {
    if n > 0 {
      AfterFilesEntries(list, start, effs, n - 1);
    }
  }

  lemma AfterFilesOwnEntries(prefix: seq<UploadProgress>, category: Category,
                             files: seq<File>, attempts: seq<Attempt>, n: nat)
    requires n <= |files| == |attempts|
    ensures var r := AfterFiles(prefix + QueuedEntries(files), |prefix|, EffectsOf(category, files, attempts), n);
            && r[..|prefix|] == prefix
            && (forall i :: 0 <= i < n ==>
                  r[|prefix| + i] == ApplySteps(PendingEntry(files[i]), Pipeline(category, files[i], attempts[i]).steps))
            && (forall i :: n <= i < |files| ==> r[|prefix| + i] == PendingEntry(files[i]))
  {
    var list := prefix + QueuedEntries(files);
    var effs := EffectsOf(category, files, attempts);
    AfterFilesEntries(list, |prefix|, effs, n);
    var r := AfterFiles(list, |prefix|, effs, n);
    assert r[..|prefix|] == prefix;
    forall i | 0 <= i < |files|
      ensures list[|prefix| + i] == PendingEntry(files[i])
    {
    }
  }

  // ----- Removing entries -----

  /** `prev.filter((_, i) => i !== index)` */
  function RemoveAt(list: seq<UploadProgress>, index: int): (r: seq<UploadProgress>)
    ensures 0 <= index < |list| ==> r == list[..index] + list[index + 1..]
    ensures !(0 <= index < |list|) ==> r == list
    decreases |list|
  {
    if list == [] then []
    else (if index == 0 then [] else [list[0]]) + RemoveAt(list[1..], index - 1)
  }

  /** The entries clearCompleted keeps. */
  predicate IsActive(e: UploadProgress) {
    e.status == Uploading || e.status == Pending
  }

  /** The upload page's state: the chosen category, the progress list, and what it has
      written to the storage bucket and the images table. */
  class UploadPage {
    var selectedCategory: Category
    var uploads: seq<UploadProgress>
    var storedFiles: seq<string>
    var insertedRows: seq<ImageInsert>

    constructor ()
      ensures selectedCategory == Track && uploads == [] && storedFiles == [] && insertedRows == []
    {
      selectedCategory := Track;
      uploads := [];
      storedFiles := [];
      insertedRows := [];
    }

    method SelectCategory(c: Category)
      modifies this`selectedCategory
      ensures selectedCategory == c
    {
      selectedCategory := c;
    }

    /** One `setUploads` update of the entry at `index`, following the updates `done` already
        made to it since the list was `before`. */
    method Patch(index: int, s: Step, ghost before: seq<UploadProgress>, ghost done: seq<Step>)
      requires uploads == PatchSteps(before, index, done)
      modifies this`uploads
      ensures uploads == PatchSteps(before, index, done + [s])
    {
      if 0 <= index < |uploads| {
        ApplyStepsSnoc(before[index], done, s);
        uploads := uploads[index := ApplyStep(uploads[index], s)];
      }
    }

    /** The loop body of handleFiles for one file whose entry is at `index`. */
    method UploadOne(file: File, index: int, a: Attempt)
      modifies this`uploads, this`storedFiles, this`insertedRows
      ensures uploads == PatchSteps(old(uploads), index, Pipeline(selectedCategory, file, a).steps)
      ensures storedFiles == old(storedFiles) + Pipeline(selectedCategory, file, a).stored
      ensures insertedRows == old(insertedRows) + Pipeline(selectedCategory, file, a).rows
    {
      ghost var before := uploads;
      assert uploads == PatchSteps(before, index, []);
      Patch(index, Begin, before, []);
      assert [] + [Begin] == [Begin];
      var compressed := CompressImage(a.image);
      if compressed.CompressFailed? {
        Patch(index, Failed(compressed.message), before, [Begin]);
        assert [Begin] + [Failed(compressed.message)] == Pipeline(selectedCategory, file, a).steps;
        return;
      }
      StoreCompressed(file, index, a, compressed, before);
    }

    /** The rest of the loop body once compressImage has resolved with `c`: store the file,
        then insert its row; the entry reaches 25 and then 75, or ends as an error. */
    method StoreCompressed(file: File, index: int, a: Attempt, c: Compressed, ghost before: seq<UploadProgress>)
      requires c.Compressed?
      requires uploads == PatchSteps(before, index, [Begin])
      modifies this`uploads, this`storedFiles, this`insertedRows
      ensures uploads == PatchSteps(before, index, Outcome(selectedCategory, file, c, a).steps)
      ensures storedFiles == old(storedFiles) + Outcome(selectedCategory, file, c, a).stored
      ensures insertedRows == old(insertedRows) + Outcome(selectedCategory, file, c, a).rows
    {
      Patch(index, Reached(25), before, [Begin]);
      assert [Begin] + [Reached(25)] == [Begin, Reached(25)];
      if a.storage.Rejected? {
        var m := ErrorMessage(a.storage.message);
        Patch(index, Failed(m), before, [Begin, Reached(25)]);
        assert Outcome(selectedCategory, file, c, a) == Effects([Begin, Reached(25), Failed(m)], [], []);
        assert [Begin, Reached(25)] + [Failed(m)] == [Begin, Reached(25), Failed(m)];
        return;
      }
      var path := StoragePath(selectedCategory, a.timestamp, file.name);
      storedFiles := storedFiles + [path];
      InsertRow(file, path, index, a, c, before);
    }

    /** The file is stored under `path`: insert its row; the entry reaches 75 and ends as a
        success, or as an error when the insert fails. */
    method InsertRow(file: File, path: string, index: int, a: Attempt, c: Compressed, ghost before: seq<UploadProgress>)
      requires c.Compressed? && a.storage.Done?
      requires path == StoragePath(selectedCategory, a.timestamp, file.name)
      requires uploads == PatchSteps(before, index, [Begin, Reached(25)])
      modifies this`uploads, this`insertedRows
      ensures uploads == PatchSteps(before, index, Outcome(selectedCategory, file, c, a).steps)
      ensures insertedRows == old(insertedRows) + Outcome(selectedCategory, file, c, a).rows
      ensures Outcome(selectedCategory, file, c, a).stored == [path]
    {
      Patch(index, Reached(75), before, [Begin, Reached(25)]);
      assert [Begin, Reached(25)] + [Reached(75)] == [Begin, Reached(25), Reached(75)];
      if a.insert.Rejected? {
        var m := ErrorMessage(a.insert.message);
        Patch(index, Failed(m), before, [Begin, Reached(25), Reached(75)]);
        assert Outcome(selectedCategory, file, c, a) == Effects([Begin, Reached(25), Reached(75), Failed(m)], [path], []);
        assert [Begin, Reached(25), Reached(75)] + [Failed(m)] == [Begin, Reached(25), Reached(75), Failed(m)];
        return;
      }
      var row := ImageInsert(path, selectedCategory.Slug(), c.width, c.height, 0, "draft");
      insertedRows := insertedRows + [row];
      Patch(index, Succeeded, before, [Begin, Reached(25), Reached(75)]);
      assert Outcome(selectedCategory, file, c, a) == Effects([Begin, Reached(25), Reached(75), Succeeded], [path], [row]);
      assert [Begin, Reached(25), Reached(75)] + [Succeeded] == [Begin, Reached(25), Reached(75), Succeeded];
    }

    /** handleFiles's loop: upload the files one after another, the i-th at index start + i. */
    method UploadEach(files: seq<File>, start: int, attempts: seq<Attempt>)
      requires |files| == |attempts|
      modifies this`uploads, this`storedFiles, this`insertedRows
      ensures var effs := EffectsOf(selectedCategory, files, attempts);
              && uploads == AfterFiles(old(uploads), start, effs, |files|)
              && storedFiles == StoredBy(old(storedFiles), effs, |files|)
              && insertedRows == RowsBy(old(insertedRows), effs, |files|)
    {
      ghost var list, stored, rows := uploads, storedFiles, insertedRows;
      ghost var effs := EffectsOf(selectedCategory, files, attempts);
      for i := 0 to |files|
        invariant uploads == AfterFiles(list, start, effs, i)
        invariant storedFiles == StoredBy(stored, effs, i)
        invariant insertedRows == RowsBy(rows, effs, i)
      {
        UploadOne(files[i], start + i, attempts[i]);
      }
    }

    /** handleFiles: queue the image files (alerting when there is none), then upload them one
        after another, the i-th at index renderedLength + i, where renderedLength is the length
        of the list the page had rendered when the files arrived. */
    method HandleFiles(files: seq<File>, renderedLength: nat, attempts: seq<Attempt>) returns (alert: Option<string>)
      requires |attempts| == |Filter(files, IsImageFile)|
      modifies this`uploads, this`storedFiles, this`insertedRows
      ensures Filter(files, IsImageFile) == [] ==>
                && alert == Some("Please select image files only")
                && uploads == old(uploads) && storedFiles == old(storedFiles) && insertedRows == old(insertedRows)
      ensures var imageFiles := Filter(files, IsImageFile);
              var effs := EffectsOf(selectedCategory, imageFiles, attempts);
              imageFiles != [] ==>
                && alert == None
                && uploads == AfterFiles(old(uploads) + QueuedEntries(imageFiles), renderedLength, effs, |imageFiles|)
                && storedFiles == StoredBy(old(storedFiles), effs, |imageFiles|)
                && insertedRows == RowsBy(old(insertedRows), effs, |imageFiles|)
    {
      var imageFiles := Filter(files, IsImageFile);
      if imageFiles == [] {
        return Some("Please select image files only");
      }
      alert := None;
      uploads := uploads + QueuedEntries(imageFiles);
      UploadEach(imageFiles, renderedLength, attempts);
    }

    /** retryUpload: the entry at `index` is dropped (the file is not sent again). */
    method RetryUpload(index: int)
      modifies this`uploads
      ensures uploads == RemoveAt(old(uploads), index)
    {
      uploads := RemoveAt(uploads, index);
    }

    /** cancelUpload: the entry at `index` is dropped. */
    method CancelUpload(index: int)
      modifies this`uploads
      ensures uploads == RemoveAt(old(uploads), index)
    {
      uploads := RemoveAt(uploads, index);
    }

    /** clearCompleted: only the entries still uploading or pending stay, in order. */
    method ClearCompleted()
      modifies this`uploads
      ensures uploads == Filter(old(uploads), IsActive)
      ensures forall i :: 0 <= i < |uploads| ==> IsActive(uploads[i])
      ensures forall i :: 0 <= i < |old(uploads)| && IsActive(old(uploads)[i]) ==> old(uploads)[i] in uploads
    {
      uploads := Filter(uploads, IsActive);
    }
  }
}
