/**
 * The upload button of the raffle forms: dropped files become image-list entries, images
 * re-encoded as WebP no larger than 600 pixels on their longer side.
 */
module Dropzone {
  import opened Wrappers

  datatype File = File(name: string, mimeType: string, bytes: seq<bv8>)

  /** An entry of the form's image list; `id` and `url` are the object URL of the file. */
  datatype Entry = Entry(id: string, url: string, file: File, isNew: bool)

  /**
   * What the browser yields for one dropped file: the bytes `canvas.toBlob` encoded (None when
   * it passed `null`) and the URL `URL.createObjectURL` returned for the resulting file.
   */
  datatype BrowserOutcome = BrowserOutcome(webp: Option<seq<bv8>>, objectUrl: string)

  const MaxWidth: real := 600.0
  const MaxHeight: real := 600.0

  /** `file.type.startsWith("image/")`. */
  predicate IsImage(f: File) {
    "image/" <= f.mimeType
  }

  /** `name.split(".")[0]`: the name up to its first dot, or all of it when it has none. */
  function Stem(name: string): (r: string)
    ensures r <= name
    ensures '.' !in r
    ensures r == name || name[|r|] == '.'
  {
    if name == [] || name[0] == '.' then [] else [name[0]] + Stem(name[1..])
  }

  /** The name of the optimised file. */
  function WebpName(name: string): string {
    Stem(name) + ".webp"
  }

  /** The stem of a dotless stem followed by a dot is that stem. */
  lemma {:induction false} StemBeforeDot(stem: string, rest: string)
    requires '.' !in stem
    ensures Stem(stem + "." + rest) == stem
  {
    if stem != [] {
      assert (stem + "." + rest)[1..] == stem[1..] + "." + rest;
      StemBeforeDot(stem[1..], rest);
    }
  }

  /** Optimising an already optimised image keeps its name. */
  lemma WebpNameIdempotent(name: string)
    ensures WebpName(WebpName(name)) == WebpName(name)
  {
    StemBeforeDot(Stem(name), "webp");
    assert Stem(name) + ".webp" == Stem(name) + "." + "webp";
  }

  /**
   * The size `optimizeImage` draws at. Both sides are kept when neither exceeds 600; otherwise
   * the longer side (the height on a tie) becomes 600 and the other is scaled by the same factor.
   */
  method FitDimensions(width: real, height: real) returns (w: real, h: real)
    requires 0.0 <= width && 0.0 <= height
    ensures width > height && width > MaxWidth ==> w == MaxWidth
    ensures height >= width && height > MaxHeight ==> h == MaxHeight
    ensures width <= MaxWidth && height <= MaxHeight ==> w == width && h == height
    ensures w <= width && h <= height
    ensures w <= MaxWidth && h <= MaxHeight
    ensures w * height == h * width
  {
    w, h := width, height;
    if w > h {
      if w > MaxWidth {
        h := h * (MaxWidth / w);
        w := MaxWidth;
        assert h < MaxWidth by { assert height / width < 1.0; }
      }
    } else {
      if h > MaxHeight {
        w := w * (MaxHeight / h);
        h := MaxHeight;
        assert w <= MaxHeight by { assert width / height <= 1.0; }
      }
    }
  }

  /**
   * `optimizeFile`: a non-image passes through; an image becomes a WebP file named after its
   * stem, or never resolves (None) when the encoder yields nothing.
   */
  function OptimizeFile(file: File, webp: Option<seq<bv8>>): (r: Option<File>)
    ensures !IsImage(file) ==> r == Some(file)
    ensures IsImage(file) ==> (r.Some? <==> webp.Some?)
    ensures IsImage(file) && r.Some? ==>
      r.value == File(WebpName(file.name), "image/webp", webp.value) && IsImage(r.value)
  {
    if !IsImage(file) then Some(file)
    else match webp
      case None => None
      case Some(bytes) =>
        assert "image/webp"[..6] == "image/";
        Some(File(WebpName(file.name), "image/webp", bytes))
  }

  /** Every file of the drop is ready: none waits forever on the encoder. */
  predicate AllResolve(files: seq<File>, browser: seq<BrowserOutcome>)
    requires |browser| == |files|
  {
    forall i :: 0 <= i < |files| ==> OptimizeFile(files[i], browser[i].webp).Some?
  }

  /** The entry `handleDrop` pushes for a file whose optimisation resolved. */
  function EntryFor(file: File, outcome: BrowserOutcome): Entry
    requires OptimizeFile(file, outcome.webp).Some?
  {
    Entry(outcome.objectUrl, outcome.objectUrl, OptimizeFile(file, outcome.webp).value, true)
  }

  /**
   * `handleDrop`: optimise the files one after another and hand all entries to `onFilesAdded`
   * at once. If one optimisation never resolves, the loop waits forever and nothing is added.
   */
  method HandleDrop(files: seq<File>, browser: seq<BrowserOutcome>) returns (added: Option<seq<Entry>>)
    requires |browser| == |files|
    ensures added.Some? <==> AllResolve(files, browser)
    ensures added.Some? ==> |added.value| == |files|
    ensures added.Some? ==> forall i :: 0 <= i < |files| ==>
      added.value[i].id == added.value[i].url == browser[i].objectUrl && added.value[i].isNew &&
      Some(added.value[i].file) == OptimizeFile(files[i], browser[i].webp)
  {
    var optimizedFiles: seq<Entry> := [];
    var i := 0;
    while i < |files|
      invariant 0 <= i <= |files| && |optimizedFiles| == i
      invariant forall k :: 0 <= k < i ==> OptimizeFile(files[k], browser[k].webp).Some?
      invariant forall k :: 0 <= k < i ==> optimizedFiles[k] == EntryFor(files[k], browser[k])
    {
      var optimizedFile := OptimizeFile(files[i], browser[i].webp);
      if optimizedFile.None? {
        return None;
      }
      var url := browser[i].objectUrl;
      optimizedFiles := optimizedFiles + [Entry(url, url, optimizedFile.value, true)];
      i := i + 1;
    }
    return Some(optimizedFiles);
  }
}
