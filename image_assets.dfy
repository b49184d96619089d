/**
 * Image assets of a composition and the manager that supplies their pixel
 * maps: a preset pixel map, then the app's delegate, then an embedded base64
 * data URI, then a file in the images folder.
 *
 * Pixel maps are opaque identities. The file system is the set of paths that
 * open, and decoding is an opaque function of the path or of the base64 text.
 */
module ImageAssets {
  import opened Wrappers
  import opened Strings

  type PixelMap = nat

  /** An image exported with the animation; only its pixel map changes after construction. */
  class LottieImageAsset {
    const width: int
    const height: int
    const id: string
    const fileName: string
    const dirName: string
    var pixelmap: Option<PixelMap>

    constructor (width: int, height: int, id: string, fileName: string, dirName: string)
      ensures this.width == width && this.height == height && this.id == id
      ensures this.fileName == fileName && this.dirName == dirName
      ensures pixelmap == None
    {
      this.width, this.height, this.id := width, height, id;
      this.fileName, this.dirName := fileName, dirName;
      pixelmap := None;
    }

    method SetPixelMap(p: Option<PixelMap>)
      modifies this`pixelmap
      ensures pixelmap == p
    {
      pixelmap := p;
    }

    /** A pixel map is at hand, or the file name is a base64 data URI. */
    predicate HasBitmap()
      reads this
    {
      pixelmap.Some? || (StartsWith(fileName, "data:") && IndexOf(fileName, "base64,") > -1)
    }
  }

  /** `hasBitmap` holds exactly for a set pixel map or a "data:" name that contains "base64,". */
  lemma HasBitmapCases(a: LottieImageAsset)
    ensures a.HasBitmap() <==>
      a.pixelmap.Some? ||
      (StartsWith(a.fileName, "data:") && exists k :: OccursAt(a.fileName, "base64,", k))
  {
    if StartsWith(a.fileName, "data:") && exists k :: OccursAt(a.fileName, "base64,", k) {
      var k :| OccursAt(a.fileName, "base64,", k);
      assert IndexOf(a.fileName, "base64,") >= 0;
    }
  }

  /** The app's `ImageAssetDelegate`: a pixel map, or none, for an asset. */
  datatype Delegate = Delegate(fetch: string -> Option<PixelMap>)

  /** What the platform offers: openable raw files and the decoders. */
  datatype Platform = Platform(
    files: set<string>,
    decodeFile: string -> Option<PixelMap>,
    base64Valid: string -> bool,
    decodeBase64: string -> Option<PixelMap>)

  /** The folder name with a '/' appended when it is non-empty and lacks one. */
  function NormalizeFolder(folder: Option<string>): (r: Option<string>)
    ensures folder.None? ==> r.None?
    ensures folder.Some? && |folder.value| > 0 ==>
      r.Some? && EndsWith(r.value, "/") && StartsWith(r.value, folder.value) && |r.value| <= |folder.value| + 1
    ensures folder.Some? && EndsWith(folder.value, "/") ==> r == folder
    ensures folder == Some("") ==> r == folder
  {
    match folder
    case None => None
    case Some(f) => if |f| > 0 && f[|f| - 1] != '/' then Some(f + "/") else Some(f)
  }

  predicate IsDataUri(fileName: string)
  {
    StartsWith(fileName, "data:") && IndexOf(fileName, "base64,") > 0
  }

  /** The text after the first ',' of a name. */
  function AfterComma(s: string): string
  {
    var k := IndexOf(s, ",");
    s[k + 1..]
  }

  /**
   * How a missing pixel map is loaded when there is no delegate, as the
   * decode branches are written: the decoder runs, and the local variable that
   * is still null is what gets stored and returned.
   */
  function LoadAsWritten(fileName: string, folder: Option<string>, env: Platform): (r: Result<Option<PixelMap>>)
    ensures r.Ok? ==> r.value.None?
  {
    if IsDataUri(fileName) then
      Ok(None)
    else if folder.None? || folder.value == "" then
      Err(IllegalState)
    else
      Ok(None)
  }

  /** How a missing pixel map is loaded when there is no delegate, with the decoded image kept. */
  function Load(fileName: string, folder: Option<string>, env: Platform): (r: Result<Option<PixelMap>>)
    ensures IsDataUri(fileName) ==> r == Ok(if env.base64Valid(AfterComma(fileName)) then env.decodeBase64(AfterComma(fileName)) else None)
    ensures !IsDataUri(fileName) && (folder.None? || folder.value == "") ==> r == Err(IllegalState)
    ensures !IsDataUri(fileName) && folder.Some? && folder.value != "" ==>
      r == Ok(if folder.value + fileName in env.files then env.decodeFile(folder.value + fileName) else None)
    ensures r.Err? <==> LoadAsWritten(fileName, folder, env).Err?
  {
    if IsDataUri(fileName) then
      var payload := AfterComma(fileName);
      if env.base64Valid(payload) then Ok(env.decodeBase64(payload)) else Ok(None)
    else if folder.None? || folder.value == "" then
      Err(IllegalState)
    else if folder.value + fileName in env.files then
      Ok(env.decodeFile(folder.value + fileName))
    else
      Ok(None)
  }

  /** A data-URI image that decodes is still reported as missing by the code as written. */
  lemma LoadAsWrittenLosesDecodedImage(p: PixelMap)
    ensures var env := Platform({}, _ => None, _ => true, _ => Some(p));
      var name := "data:image/png;base64,AAAA";
      LoadAsWritten(name, None, env) == Ok(None) && Load(name, None, env) == Ok(Some(p))
  {
    var name := "data:image/png;base64,AAAA";
    assert OccursAt(name, "base64,", 15);
    assert name[0] == 'd';
    assert !OccursAt(name, "base64,", 0);
    assert IndexOf(name, "base64,") > 0;
    assert StartsWith(name, "data:");
  }

  class ImageAssetManager {
    var imagesFolder: Option<string>
    var delegate: Option<Delegate>
    const imageAssets: map<string, LottieImageAsset>

    constructor (imagesFolder: Option<string>, delegate: Option<Delegate>, imageAssets: map<string, LottieImageAsset>)
      ensures this.imagesFolder == NormalizeFolder(imagesFolder)
      ensures this.delegate == delegate && this.imageAssets == imageAssets
    {
      this.imagesFolder := NormalizeFolder(imagesFolder);
      this.delegate := delegate;
      this.imageAssets := imageAssets;
    }

    method SetDelegate(d: Option<Delegate>)
      modifies this`delegate
      ensures delegate == d
    {
      delegate := d;
    }

    /**
     * Replaces (or, with None, clears) the pixel map of an asset and returns
     * the previous one; an unknown id dereferences null.
     */
    method UpdateBitmap(id: string, bitmap: Option<PixelMap>) returns (r: Result<Option<PixelMap>>)
      modifies imageAssets.Values
      ensures id !in imageAssets ==> r == Err(NullPointer)
      ensures id in imageAssets ==> r == Ok(old(imageAssets[id].pixelmap)) && imageAssets[id].pixelmap == bitmap
      ensures forall a :: a in imageAssets.Values && (id !in imageAssets || a != imageAssets[id]) ==>
        a.pixelmap == old(a.pixelmap)
    {
      if id !in imageAssets {
        return Err(NullPointer);
      }
      var asset := imageAssets[id];
      var prev := asset.pixelmap;
      asset.SetPixelMap(bitmap);
      r := Ok(prev);
    }

    /**
     * The pixel map for an asset id: none for an unknown id, the preset one
     * if any, else the delegate's answer (stored only when present), else the
     * loaded image, stored.
     */
    method BitmapForId(id: string, env: Platform) returns (r: Result<Option<PixelMap>>)
      modifies imageAssets.Values
      ensures id !in imageAssets ==> r == Ok(None)
      ensures id in imageAssets && old(imageAssets[id].pixelmap).Some? ==> r == Ok(old(imageAssets[id].pixelmap))
      ensures id in imageAssets && old(imageAssets[id].pixelmap).None? && delegate.Some? ==>
        r == Ok(delegate.value.fetch(id)) && imageAssets[id].pixelmap == delegate.value.fetch(id)
      ensures id in imageAssets && old(imageAssets[id].pixelmap).None? && delegate.None? ==>
        r == Load(imageAssets[id].fileName, imagesFolder, env) &&
        imageAssets[id].pixelmap == (if r.Ok? then r.value else None)
      ensures forall a :: a in imageAssets.Values && (id !in imageAssets || a != imageAssets[id]) ==>
        a.pixelmap == old(a.pixelmap)
      ensures id in imageAssets && old(imageAssets[id].pixelmap).Some? ==> imageAssets[id].pixelmap == old(imageAssets[id].pixelmap)
    {
      if id !in imageAssets {
        return Ok(None);
      }
      var asset := imageAssets[id];
      if asset.pixelmap.Some? {
        return Ok(asset.pixelmap);
      }
      if delegate.Some? {
        var p := delegate.value.fetch(id);
        if p.Some? {
          asset.SetPixelMap(p);
        }
        return Ok(p);
      }
      r := Load(asset.fileName, imagesFolder, env);
      if r.Ok? {
        asset.SetPixelMap(r.value);
      }
    }
  }
}
