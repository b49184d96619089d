/**
 * Making compositions and sharing them: every load is a task under a cache
 * key; a key already in the memory cache gets a task that hands back the
 * cached composition, and a key with a task still running gets that same
 * task. A zip archive holds one animation JSON and its images.
 *
 * Tasks are identities with the work they do; running them, their threads
 * and the JSON parser are not modelled. The memory cache is a plain map (its
 * LRU eviction is not modelled).
 */
module CompositionFactory {
  import opened Wrappers
  import opened Strings
  import Composition
  import ImageAssets
  import NetworkCaches

  type Comp = Composition.LottieComposition
  type Asset = ImageAssets.LottieImageAsset
  type PixelMap = ImageAssets.PixelMap

  /** What a task does: hand back a composition at hand, or run a loader (an opaque callable). */
  datatype Work = Loaded(composition: Comp) | Load(loader: nat)

  /** A `LottieTask`: its identity and its work. */
  datatype Task = Task(id: nat, work: Work)

  /** The in-flight tasks by key, the key each task's listeners remove, and the next fresh task identity. */
  datatype Registry = Registry(tasks: map<string, Task>, listening: map<nat, string>, nextId: nat)

  /** Every registered task is fresh-numbered below `nextId` and its listeners remove its own key. */
  predicate Consistent(reg: Registry)
  {
    && (forall key | key in reg.tasks :: reg.tasks[key].id in reg.listening && reg.listening[reg.tasks[key].id] == key)
    && (forall id | id in reg.listening :: id < reg.nextId)
  }

  /**
   * `cache`: a key in the memory cache gets a new task handing back the cached
   * composition; a key with an in-flight task gets that task; otherwise a new
   * task runs the loader and, under a key, is registered until it finishes.
   */
  function CacheStep(reg: Registry, memory: map<string, Comp>, key: Option<string>, loader: nat): (r: (Task, Registry))
    ensures key.Some? && key.value in memory ==>
      r.0 == Task(reg.nextId, Loaded(memory[key.value])) && r.1.tasks == reg.tasks && r.1.listening == reg.listening
    ensures key.Some? && key.value !in memory && key.value in reg.tasks ==> r == (reg.tasks[key.value], reg)
    ensures key.None? ==> r.0 == Task(reg.nextId, Load(loader)) && r.1.tasks == reg.tasks && r.1.listening == reg.listening
    ensures key.Some? && key.value !in memory && key.value !in reg.tasks ==>
      r.0 == Task(reg.nextId, Load(loader)) && r.1.tasks == reg.tasks[key.value := r.0]
  {
    if key.Some? && key.value in memory then
      (Task(reg.nextId, Loaded(memory[key.value])), reg.(nextId := reg.nextId + 1))
    else if key.Some? && key.value in reg.tasks then
      (reg.tasks[key.value], reg)
    else
      var task := Task(reg.nextId, Load(loader));
      if key.Some? then
        (task, Registry(reg.tasks[key.value := task], reg.listening[reg.nextId := key.value], reg.nextId + 1))
      else
        (task, reg.(nextId := reg.nextId + 1))
  }

  /** A finished task's success or failure listener removes its key from the registry. */
  function Finish(reg: Registry, id: nat): (r: Registry)
    ensures r.listening == reg.listening && r.nextId == reg.nextId
  {
    if id in reg.listening then reg.(tasks := reg.tasks - {reg.listening[id]}) else reg
  }

  /** Two requests for the same uncached key, the first still running, share one task and one registration. */
  lemma CacheCoalesces(reg: Registry, memory: map<string, Comp>, key: string, first: nat, second: nat)
    requires key !in memory
    ensures var (t1, r1) := CacheStep(reg, memory, Some(key), first);
      CacheStep(r1, memory, Some(key), second) == (t1, r1)
  {
  }

  /** Every task `cache` makes is new: no registered task has its identity. */
  lemma CacheMakesFreshTasks(reg: Registry, memory: map<string, Comp>, key: Option<string>, loader: nat)
    requires Consistent(reg)
    requires key.None? || key.value in memory || key.value !in reg.tasks
    ensures var t := CacheStep(reg, memory, key, loader).0;
      t.id == reg.nextId && forall k | k in reg.tasks :: reg.tasks[k].id != t.id
  {
  }

  /** `cache` keeps the registry consistent. */
  lemma CacheKeepsConsistent(reg: Registry, memory: map<string, Comp>, key: Option<string>, loader: nat)
    requires Consistent(reg)
    ensures Consistent(CacheStep(reg, memory, key, loader).1)
  {
    var (t, r) := CacheStep(reg, memory, key, loader);
    if key.Some? && key.value !in memory && key.value !in reg.tasks {
      forall k | k in r.tasks
        ensures r.tasks[k].id in r.listening && r.listening[r.tasks[k].id] == k
      {
        if k != key.value {
          assert reg.tasks[k].id < reg.nextId;
        }
      }
    }
  }

  /** A finished registered task takes exactly its own key out of the registry, which stays consistent. */
  lemma FinishRemovesOwnKey(reg: Registry, key: string)
    requires Consistent(reg) && key in reg.tasks
    ensures Finish(reg, reg.tasks[key].id).tasks == reg.tasks - {key}
    ensures Consistent(Finish(reg, reg.tasks[key].id))
  {
  }

  /** After the task under a key finishes, the next request for that key starts a new task. */
  lemma FinishedKeyLoadsAnew(reg: Registry, memory: map<string, Comp>, key: string, loader: nat)
    requires Consistent(reg) && key in reg.tasks && key !in memory
    ensures var after := Finish(reg, reg.tasks[key].id);
      CacheStep(after, memory, Some(key), loader).0 == Task(reg.nextId, Load(loader))
  {
    FinishRemovesOwnKey(reg, key);
  }

  /** `Integer.toString` of a natural number: its decimal digits, most significant first. */
  function DecimalNat(n: nat): (r: string)
    ensures |r| >= 1 && (|r| == 1 <==> n < 10)
    ensures forall i :: 0 <= i < |r| ==> '0' <= r[i] <= '9'
  {
    if n < 10 then [Digit(n)] else DecimalNat(n / 10) + [Digit(n % 10)]
  }

  function Digit(d: nat): (c: char)
    requires d < 10
    ensures '0' <= c <= '9'
  {
    ('0' as int + d) as char
  }

  /** `Integer.toString`: a minus sign in front of a negative number's digits. */
  function Decimal(n: int): string
  {
    if n < 0 then "-" + DecimalNat(-n) else DecimalNat(n)
  }

  /** Different numbers are written differently. */
  lemma {:induction false} DecimalNatInjective(a: nat, b: nat)
    requires DecimalNat(a) == DecimalNat(b)
    ensures a == b
  {
    if a >= 10 && b >= 10 {
      var sa, sb := DecimalNat(a), DecimalNat(b);
      assert sa[..|sa| - 1] == DecimalNat(a / 10) && sb[..|sb| - 1] == DecimalNat(b / 10);
      DecimalNatInjective(a / 10, b / 10);
      assert Digit(a % 10) == sa[|sa| - 1] == sb[|sb| - 1] == Digit(b % 10);
    }
  }

  lemma DecimalInjective(a: int, b: int)
    requires Decimal(a) == Decimal(b)
    ensures a == b
  {
    SignFirst(a);
    SignFirst(b);
    if a < 0 {
      assert Decimal(a)[1..] == DecimalNat(-a) && Decimal(b)[1..] == DecimalNat(-b);
      DecimalNatInjective(-a, -b);
    } else {
      DecimalNatInjective(a, b);
    }
  }

  /** A number is written with a leading minus sign exactly when it is negative. */
  lemma SignFirst(n: int)
    ensures |Decimal(n)| >= 1 && (Decimal(n)[0] == '-' <==> n < 0)
  {
    if n >= 0 {
      assert '0' <= DecimalNat(n)[0] <= '9';
    }
  }

  /** Where an animation is loaded from, as the overloads without a cache key name it. */
  datatype Source = Url(url: string) | UrlSync(url: string) | Asset(fileName: string) | RawRes(resId: int)

  /** The default cache keys: "url_" + url, the bare url for the blocking URL load, "asset_" + name, "rawRes" + id. */
  function DefaultKey(s: Source): string
  {
    match s
    case Url(url) => "url_" + url
    case UrlSync(url) => url
    case Asset(fileName) => "asset_" + fileName
    case RawRes(resId) => "rawRes" + Decimal(resId)
  }

  /** URL, asset and resource loads never share a default key, and within a kind the key tells sources apart. */
  lemma DefaultKeysDistinct(s: Source, t: Source)
    requires !s.UrlSync? && !t.UrlSync?
    requires DefaultKey(s) == DefaultKey(t)
    ensures s == t
  {
    var k := DefaultKey(s);
    match s
    case Url(u) =>
      assert k[0] == 'u';
      if t.Url? {
        assert u == k[4..] == t.url;
      }
    case Asset(f) =>
      assert k[0] == 'a';
      if t.Asset? {
        assert f == k[6..] == t.fileName;
      }
    case RawRes(id) =>
      assert k[0] == 'r';
      if t.RawRes? {
        assert k[6..] == Decimal(id) == Decimal(t.resId);
        DecimalInjective(id, t.resId);
      }
  }

  /** The blocking URL load keys by the bare URL, so it never shares an entry with the task-based one. */
  lemma UrlKeysDiffer(url: string)
    ensures DefaultKey(Url(url)) != DefaultKey(UrlSync(url))
  {
    assert |DefaultKey(Url(url))| == |url| + 4;
  }

  /** How an asset or resource is read. */
  datatype Route = ZipRoute | JsonRoute

  /** `fromAssetSync`: names ending ".zip" or ".lottie" are read as zip archives, all else as JSON. */
  function AssetRoute(fileName: string): Route
  {
    if EndsWith(fileName, ".zip") || EndsWith(fileName, ".lottie") then ZipRoute else JsonRoute
  }

  /** A name the network cache reads as a zip archive is read as one from assets too. */
  lemma AssetRouteAgreesWithCache(fileName: string)
    ensures NetworkCaches.ForFile(fileName) == NetworkCaches.ZIP ==> AssetRoute(fileName) == ZipRoute
  {
    NetworkCaches.ForFileCases(fileName);
  }

  /** ".lottie" is a zip archive from assets only: the network cache reads it as JSON. */
  lemma LottieNameZipFromAssetsOnly()
    ensures NetworkCaches.ForFile("a.lottie") == NetworkCaches.JSON && AssetRoute("a.lottie") == ZipRoute
  {
    NetworkCaches.ForFileCases("a.lottie");
    assert "a.lottie"[4..] == "ttie";
    assert "a.lottie"[2..] == "lottie";
  }

  /** The local file header signature of section 4.3.7 of PKWARE's APPNOTE.TXT: "PK\x03\x04". */
  const MAGIC: seq<bv8> := [0x50, 0x4b, 0x03, 0x04]

  /** The stream starts with the four signature bytes. */
  predicate HasZipMagic(bytes: seq<bv8>)
  {
    |bytes| >= 4 && bytes[..4] == MAGIC
  }

  /** Only the first four bytes count, and a stream shorter than four bytes is never a zip archive. */
  lemma ZipMagicIsHeader(bytes: seq<bv8>, rest: seq<bv8>)
    ensures |bytes| < 4 ==> !HasZipMagic(bytes)
    ensures |bytes| >= 4 ==> HasZipMagic(bytes + rest) == HasZipMagic(bytes)
  {
    if |bytes| >= 4 {
      assert (bytes + rest)[..4] == bytes[..4];
    }
  }

  /**
   * `isZipCompressed`: peeks at the bytes one by one against the signature;
   * running out of bytes is an exception, which reads as "not a zip".
   */
  method IsZipCompressed(source: seq<bv8>) returns (r: bool)
    ensures r == HasZipMagic(source)
  {
    for i := 0 to 4
      invariant i <= |source| && source[..i] == MAGIC[..i]
    {
      if i >= |source| || source[i] != MAGIC[i] {
        assert !HasZipMagic(source) by {
          if |source| >= 4 {
            assert source[..4][i] == source[i];
          }
        }
        return false;
      }
      assert source[..i + 1] == source[..i] + [source[i]];
    }
    return true;
  }

  /**
   * One archive entry: its name, what the JSON parser makes of it, and what
   * the image decoder makes of it. A parsed composition comes with its image
   * assets in the order its image map enumerates them.
   */
  datatype Parsed = Parsed(composition: Comp, assets: seq<Asset>)
  datatype ZipEntry = ZipEntry(name: string, parsed: Option<Parsed>, decoded: Option<PixelMap>)

  /** How the import treats an entry. */
  datatype EntryKind = Skipped | Animation | Image

  /** `__MACOSX` entries and the ".lottie" manifest are skipped, then ".json" entries are animations, ".png" and ".webp" entries images, anything else skipped. */
  function KindOf(name: string): EntryKind
  {
    if ContainsStr(name, "__MACOSX") then Skipped
    else if EqualsIgnoreCase(name, "manifest.json") then Skipped
    else if ContainsStr(name, ".json") then Animation
    else if ContainsStr(name, ".png") || ContainsStr(name, ".webp") then Image
    else Skipped
  }

  /** What the entry loop has gathered: the last composition read and the images by file name. */
  datatype Scan = Scan(parsed: Option<Parsed>, images: map<string, Option<PixelMap>>)

  /** One step of the loop: an animation replaces the composition, even with a failed parse; an image is stored under its last path segment. */
  function Step(acc: Scan, e: ZipEntry): Scan
  {
    match KindOf(e.name)
    case Skipped => acc
    case Animation => acc.(parsed := e.parsed)
    case Image => acc.(images := acc.images[LastSegment(e.name) := e.decoded])
  }

  /** The entries read in order. */
  function ScanOf(entries: seq<ZipEntry>): Scan
  {
    if entries == [] then Scan(None, map[])
    else Step(ScanOf(entries[..|entries| - 1]), entries[|entries| - 1])
  }

  /** The last position holding true, if any. */
  function LastTrue(flags: seq<bool>): (r: Option<nat>)
    ensures r.Some? ==> r.value < |flags| && flags[r.value]
    ensures forall j | 0 <= j < |flags| && (r.None? || r.value < j) :: !flags[j]
  {
    if flags == [] then None
    else if flags[|flags| - 1] then Some(|flags| - 1)
    else LastTrue(flags[..|flags| - 1])
  }

  /** Which entries satisfy p, one flag per entry. */
  function Marks(entries: seq<ZipEntry>, p: ZipEntry -> bool): (r: seq<bool>)
    ensures |r| == |entries|
  {
    if entries == [] then []
    else Marks(entries[..|entries| - 1], p) + [p(entries[|entries| - 1])]
  }

  lemma {:induction false} MarkAt(entries: seq<ZipEntry>, p: ZipEntry -> bool, i: nat)
    requires i < |entries|
    ensures Marks(entries, p)[i] == p(entries[i])
  {
    if i < |entries| - 1 {
      MarkAt(entries[..|entries| - 1], p, i);
    }
  }

  predicate IsAnimation(e: ZipEntry)
  {
    KindOf(e.name) == Animation
  }

  /** Which entries are animations. */
  function AnimationFlags(entries: seq<ZipEntry>): (r: seq<bool>)
    ensures |r| == |entries|
  {
    Marks(entries, IsAnimation)
  }

  lemma AnimationFlagAt(entries: seq<ZipEntry>, i: nat)
    requires i < |entries|
    ensures AnimationFlags(entries)[i] <==> KindOf(entries[i].name) == Animation
  {
    MarkAt(entries, IsAnimation, i);
  }

  /** The composition found is the last animation entry's, failed parse included, or none without one. */
  lemma {:induction false} LastAnimationWins(entries: seq<ZipEntry>)
    ensures ScanOf(entries).parsed == match LastTrue(AnimationFlags(entries)) case None => None case Some(i) => entries[i].parsed
  {
    if entries != [] {
      var init, last := entries[..|entries| - 1], entries[|entries| - 1];
      LastAnimationWins(init);
      StepParsed(ScanOf(init), last);
      var flags := AnimationFlags(entries);
      assert flags == AnimationFlags(init) + [IsAnimation(last)];
      assert flags[..|flags| - 1] == AnimationFlags(init);
      match LastTrue(AnimationFlags(init))
      case None =>
      case Some(i) => assert init[i] == entries[i];
    }
  }

  predicate IsImageNamed(e: ZipEntry, name: string)
  {
    KindOf(e.name) == Image && LastSegment(e.name) == name
  }

  /** Which entries are images stored under the name. */
  function ImageFlags(entries: seq<ZipEntry>, name: string): (r: seq<bool>)
    ensures |r| == |entries|
  {
    Marks(entries, e => IsImageNamed(e, name))
  }

  lemma ImageFlagAt(entries: seq<ZipEntry>, name: string, i: nat)
    requires i < |entries|
    ensures ImageFlags(entries, name)[i] <==> IsImageNamed(entries[i], name)
  {
    MarkAt(entries, e => IsImageNamed(e, name), i);
  }

  /** A file name has an image exactly when an image entry ends in it, and the last such entry's decoding is kept. */
  lemma {:induction false} ImagesByLastSegment(entries: seq<ZipEntry>, name: string)
    ensures name in ScanOf(entries).images <==> LastTrue(ImageFlags(entries, name)).Some?
    ensures name in ScanOf(entries).images ==>
      ScanOf(entries).images[name] == entries[LastTrue(ImageFlags(entries, name)).value].decoded
  {
    if entries != [] {
      var init, last := entries[..|entries| - 1], entries[|entries| - 1];
      ImagesByLastSegment(init, name);
      StepImage(ScanOf(init), last, name);
      var flags := ImageFlags(entries, name);
      assert flags == ImageFlags(init, name) + [IsImageNamed(last, name)];
      assert flags[..|flags| - 1] == ImageFlags(init, name);
      match LastTrue(ImageFlags(init, name))
      case None =>
      case Some(i) => assert init[i] == entries[i];
    }
  }

  /** One step of the loop as seen from the composition it keeps. */
  lemma StepParsed(acc: Scan, e: ZipEntry)
    ensures Step(acc, e).parsed == if IsAnimation(e) then e.parsed else acc.parsed
  {
  }

  /** One step of the loop as seen from one image name. */
  lemma StepImage(acc: Scan, e: ZipEntry, name: string)
    ensures name in Step(acc, e).images <==> IsImageNamed(e, name) || name in acc.images
    ensures name in Step(acc, e).images ==>
      Step(acc, e).images[name] == if IsImageNamed(e, name) then e.decoded else acc.images[name]
  {
    if KindOf(e.name) == Image {
      assert Step(acc, e).images == acc.images[LastSegment(e.name) := e.decoded];
    } else {
      assert Step(acc, e).images == acc.images;
    }
  }

  /** Skipped entries change nothing. */
  lemma SkippedEntryIgnored(entries: seq<ZipEntry>, e: ZipEntry)
    requires KindOf(e.name) == Skipped
    ensures ScanOf(entries + [e]) == ScanOf(entries)
  {
    assert (entries + [e])[..|entries|] == entries;
  }

  /** The first asset, in enumeration order, with the file name. */
  function FirstWithName(assets: seq<Asset>, name: string): (r: Option<nat>)
    ensures r.Some? ==> r.value < |assets| && assets[r.value].fileName == name
    ensures forall k | 0 <= k < |assets| && (r.None? || k < r.value) :: assets[k].fileName != name
  {
    if assets == [] then None
    else if assets[0].fileName == name then Some(0)
    else match FirstWithName(assets[1..], name)
      case None => None
      case Some(k) => Some(k + 1)
  }

  /** Asset i gets an image: one is named after its file, and it is the first asset with that name. */
  predicate Owns(assets: seq<Asset>, images: map<string, Option<PixelMap>>, i: nat)
    requires i < |assets|
  {
    var name := assets[i].fileName;
    name in images && FirstWithName(assets, name).Some? && assets[FirstWithName(assets, name).value] == assets[i]
  }

  /** The composition an archive's entries give, when they give one. */
  function Found(entries: seq<ZipEntry>): Parsed
    requires ScanOf(entries).parsed.Some?
  {
    ScanOf(entries).parsed.value
  }

  /** The pixel map asset i of the scanned composition ends with, given the one it had. */
  function Attached(scan: Scan, i: nat, before: Option<PixelMap>): Option<PixelMap>
    requires scan.parsed.Some? && i < |scan.parsed.value.assets|
  {
    var (assets, images) := (scan.parsed.value.assets, scan.images);
    if Owns(assets, images, i) then images[assets[i].fileName] else before
  }

  class LottieCompositionFactory {
    var taskCache: map<string, Task>
    var listening: map<nat, string>
    var nextId: nat
    /** The memory cache of compositions by key. */
    var memory: map<string, Comp>
    const network: NetworkCaches.NetworkCache

    constructor (network: NetworkCaches.NetworkCache)
      ensures taskCache == map[] && listening == map[] && nextId == 0 && memory == map[]
      ensures this.network == network
    {
      taskCache, listening, nextId, memory := map[], map[], 0, map[];
      this.network := network;
    }

    /** `cache`, one request. */
    method Cache(key: Option<string>, loader: nat) returns (task: Task)
      modifies this`taskCache, this`listening, this`nextId
      ensures (task, Registry(taskCache, listening, nextId)) == CacheStep(old(Registry(taskCache, listening, nextId)), memory, key, loader)
    {
      if key.Some? && key.value in memory {
        task := Task(nextId, Loaded(memory[key.value]));
        nextId := nextId + 1;
        return;
      }
      if key.Some? && key.value in taskCache {
        return taskCache[key.value];
      }
      task := Task(nextId, Load(loader));
      if key.Some? {
        taskCache := taskCache[key.value := task];
        listening := listening[nextId := key.value];
      }
      nextId := nextId + 1;
    }

    /** The task finished, with a result or a failure: its listeners run. */
    method TaskFinished(task: Task)
      modifies this`taskCache
      ensures Registry(taskCache, listening, nextId) == Finish(old(Registry(taskCache, listening, nextId)), task.id)
    {
      if task.id in listening {
        taskCache := taskCache - {listening[task.id]};
      }
    }

    /** A successful load under a key puts the composition in the memory cache. */
    method Put(key: Option<string>, composition: Comp)
      modifies this`memory
      ensures memory == if key.Some? then old(memory)[key.value := composition] else old(memory)
    {
      if key.Some? {
        memory := memory[key.value := composition];
      }
    }

    /** `clearCache`: the task map, the memory cache and the network cache are emptied. */
    method ClearCache()
      modifies this`taskCache, this`memory, network`files, network`dirExists
      ensures taskCache == map[] && memory == map[]
      ensures network.files == set p | p in old(network.files) && p != network.dir && !NetworkCaches.IsChild(network.dir, p)
      ensures !network.dirExists
    {
      taskCache := map[];
      memory := map[];
      network.Clear();
    }

    /**
     * `fromZipStreamSyncInternal`: reads every entry; fails on a broken
     * stream, or without a composition; gives each image to the first asset
     * named after it; fails when an asset is left without a pixel map; and
     * caches the composition under a key.
     */
    method FromZipStream(entries: seq<ZipEntry>, broken: bool, key: Option<string>) returns (r: Result<Comp>)
      modifies this`memory
      modifies set a | ScanOf(entries).parsed.Some? && a in ScanOf(entries).parsed.value.assets
      ensures broken ==> r == Err(IOFailure)
      ensures !broken && ScanOf(entries).parsed.None? ==> r == Err(IllegalArgument)
      ensures r.Err? ==> memory == old(memory)
      ensures !broken && ScanOf(entries).parsed.Some? ==> forall i | 0 <= i < |Found(entries).assets| ::
        Found(entries).assets[i].pixelmap == Attached(ScanOf(entries), i, old(Found(entries).assets[i].pixelmap))
      ensures !broken && ScanOf(entries).parsed.Some? ==>
        (r.Ok? <==> forall i | 0 <= i < |Found(entries).assets| :: Found(entries).assets[i].pixelmap.Some?)
      ensures !broken && ScanOf(entries).parsed.Some? ==> r == Err(IllegalState) || r == Ok(Found(entries).composition)
      ensures r.Ok? ==> memory == if key.Some? then old(memory)[key.value := r.value] else old(memory)
    {
      var scan := ScanEntries(entries);
      if scan.parsed.Some? {
        var p := scan.parsed.value;
        assert Found(entries) == p;
        assert forall i | 0 <= i < |p.assets| :: p.assets[i].pixelmap == old(p.assets[i].pixelmap);
      }
      assert memory == old(memory);
      r := FromScan(scan, broken, key);
    }

    /** What `fromZipStreamSyncInternal` does once the entry loop has gathered `scan`. */
    method FromScan(scan: Scan, broken: bool, key: Option<string>) returns (r: Result<Comp>)
      modifies this`memory
      modifies set a | scan.parsed.Some? && a in scan.parsed.value.assets
      ensures broken ==> r == Err(IOFailure)
      ensures !broken && scan.parsed.None? ==> r == Err(IllegalArgument)
      ensures r.Err? ==> memory == old(memory)
      ensures !broken && scan.parsed.Some? ==> forall i | 0 <= i < |scan.parsed.value.assets| ::
        scan.parsed.value.assets[i].pixelmap == Attached(scan, i, old(scan.parsed.value.assets[i].pixelmap))
      ensures !broken && scan.parsed.Some? ==>
        (r.Ok? <==> forall i | 0 <= i < |scan.parsed.value.assets| :: scan.parsed.value.assets[i].pixelmap.Some?)
      ensures !broken && scan.parsed.Some? ==> r == Err(IllegalState) || r == Ok(scan.parsed.value.composition)
      ensures r.Ok? ==> memory == if key.Some? then old(memory)[key.value := r.value] else old(memory)
    {
      if broken {
        return Err(IOFailure);
      }
      if scan.parsed.None? {
        return Err(IllegalArgument);
      }
      assert scan == Scan(Some(scan.parsed.value), scan.images);
      r := Attach(scan.parsed.value, scan.images, key);
    }

    /** After the loop: the images go to their assets, every asset must have one, and the composition is cached. */
    method Attach(p: Parsed, images: map<string, Option<PixelMap>>, key: Option<string>) returns (r: Result<Comp>)
      modifies this`memory, set a | a in p.assets
      ensures forall i | 0 <= i < |p.assets| :: p.assets[i].pixelmap == Attached(Scan(Some(p), images), i, old(p.assets[i].pixelmap))
      ensures r.Ok? <==> forall i | 0 <= i < |p.assets| :: p.assets[i].pixelmap.Some?
      ensures r.Err? ==> r == Err(IllegalState) && memory == old(memory)
      ensures r.Ok? ==> r.value == p.composition && memory == if key.Some? then old(memory)[key.value := p.composition] else old(memory)
    {
      AttachImages(p.assets, images);
      var complete := AllHavePixelMaps(p.assets);
      if !complete {
        return Err(IllegalState);
      }
      Put(key, p.composition);
      return Ok(p.composition);
    }
  }

  /** The entry loop. */
  method ScanEntries(entries: seq<ZipEntry>) returns (s: Scan)
    ensures s == ScanOf(entries)
  {
    var parsed: Option<Parsed> := None;
    var images: map<string, Option<PixelMap>> := map[];
    for i := 0 to |entries|
      invariant Scan(parsed, images) == ScanOf(entries[..i])
    {
      var e := entries[i];
      assert entries[..i + 1][..i] == entries[..i];
      var kind := KindOf(e.name);
      if kind == Animation {
        parsed := e.parsed;
      } else if kind == Image {
        images := images[LastSegment(e.name) := e.decoded];
      }
    }
    assert entries[..|entries|] == entries;
    return Scan(parsed, images);
  }

  /** `findImageAssetForFileName`: the first asset, in enumeration order, with the name. */
  method FindAsset(assets: seq<Asset>, name: string) returns (r: Option<nat>)
    ensures r == FirstWithName(assets, name)
  {
    for i := 0 to |assets|
      invariant FirstWithName(assets, name) == FirstWithName(assets[i..], name) ||
        (FirstWithName(assets[i..], name).Some? && FirstWithName(assets, name) == Some(FirstWithName(assets[i..], name).value + i))
      invariant forall k | 0 <= k < i :: assets[k].fileName != name
    {
      if assets[i].fileName == name {
        FirstFound(assets, name, i);
        return Some(i);
      }
    }
    FirstMissing(assets, name);
    return None;
  }

  lemma FirstFound(assets: seq<Asset>, name: string, i: nat)
    requires i < |assets| && assets[i].fileName == name
    requires forall k | 0 <= k < i :: assets[k].fileName != name
    ensures FirstWithName(assets, name) == Some(i)
  {
    var r := FirstWithName(assets, name);
    assert r.Some?;
  }

  lemma FirstMissing(assets: seq<Asset>, name: string)
    requires forall k | 0 <= k < |assets| :: assets[k].fileName != name
    ensures FirstWithName(assets, name) == None
  {
  }

  /** `findImageAsset`: each image goes to the first asset named after it. */
  method AttachImages(assets: seq<Asset>, images: map<string, Option<PixelMap>>)
    modifies set a | a in assets
    ensures forall i | 0 <= i < |assets| ::
      assets[i].pixelmap == if Owns(assets, images, i) then images[assets[i].fileName] else old(assets[i].pixelmap)
  {
    var names := images.Keys;
    while names != {}
      invariant names <= images.Keys
      invariant forall i | 0 <= i < |assets| ::
        assets[i].pixelmap == if Owns(assets, images, i) && assets[i].fileName !in names then images[assets[i].fileName] else old(assets[i].pixelmap)
      decreases names
    {
      var name :| name in names;
      var k := FindAsset(assets, name);
      names := names - {name};
      if k.Some? {
        assets[k.value].pixelmap := images[name];
      }
    }
  }

  /** The final check: every asset has a pixel map. */
  method AllHavePixelMaps(assets: seq<Asset>) returns (ok: bool)
    ensures ok <==> forall i | 0 <= i < |assets| :: assets[i].pixelmap.Some?
  {
    for i := 0 to |assets|
      invariant forall k | 0 <= k < i :: assets[k].pixelmap.Some?
    {
      if assets[i].pixelmap.None? {
        return false;
      }
    }
    return true;
  }
}
