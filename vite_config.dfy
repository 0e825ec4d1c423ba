/** The output naming rules of the bundler configuration (vite.config.js):
    the path template each emitted asset, chunk and entry script is written to.
    `[name]`, `[hash]` and `[extname]` are placeholders the bundler fills in;
    here they are plain text. */
module ViteConfig {
  import opened Text

  /** Where images go. */
  const ImagesTemplate := "assets/images/[name]-[hash][extname]"
  /** Where every other asset goes. */
  const AssetsTemplate := "assets/[name]-[hash][extname]"
  /** `chunkFileNames` and `entryFileNames`: one fixed template for scripts. */
  const ChunkFileNames := "assets/[name]-[hash].js"
  const EntryFileNames := "assets/[name]-[hash].js"

  /** The words of the pattern `/png|jpe?g|svg|gif|tiff|bmp|ico/i`, in the
      pattern's order, with `jpe?g` written out as its two words. */
  const ImageWords: seq<string> := ["png", "jpg", "jpeg", "svg", "gif", "tiff", "bmp", "ico"]

  /** The case folding the `i` flag applies to ASCII letters. (Without the `u`
      flag a character outside ASCII never folds onto an ASCII letter, so no
      other character can match a letter of the pattern.) */
  function Lower(c: char): char {
    if 'A' <= c <= 'Z' then (c as int + 32) as char else c
  }

  /** `w` occurs in `s` at position `k`, ignoring case. */
  predicate MatchesAt(s: string, k: nat, w: string) {
    k + |w| <= |s| && forall j :: 0 <= j < |w| ==> Lower(s[k + j]) == w[j]
  }

  /** Reference meaning of the pattern: some image word occurs somewhere in `s`,
      ignoring case; the pattern has no anchors. */
  ghost predicate ContainsImageWord(s: string) {
    exists k: nat, i :: 0 <= i < |ImageWords| && MatchesAt(s, k, ImageWords[i])
  }

  /** Alternatives `i..` of the pattern tried at position `k`. */
  function AlternativeAt(s: string, k: nat, i: nat): bool
    requires i <= |ImageWords|
    decreases |ImageWords| - i
  {
    if i == |ImageWords| then false
    else MatchesAt(s, k, ImageWords[i]) || AlternativeAt(s, k, i + 1)
  }

  /** `RegExp.prototype.test`: the search tries every start position from
      `from` on, left to right. */
  function RegexTest(s: string, from: nat): (r: bool)
    ensures r ==> exists k: nat, i :: from <= k && 0 <= i < |ImageWords| && MatchesAt(s, k, ImageWords[i])
    decreases |s| + 1 - from
  {
    if from > |s| then false
    else
      AlternativeAtMeans(s, from, 0);
      AlternativeAt(s, from, 0) || RegexTest(s, from + 1)
  }

  lemma {:induction false} AlternativeAtMeans(s: string, k: nat, i: nat)
    requires i <= |ImageWords|
    ensures AlternativeAt(s, k, i) <==> exists a :: i <= a < |ImageWords| && MatchesAt(s, k, ImageWords[a])
    decreases |ImageWords| - i
  {
    if i < |ImageWords| {
      AlternativeAtMeans(s, k, i + 1);
    }
  }

  /** A word found at `k` is found by the search started at any `from <= k`. */
  lemma {:induction false} FoundFrom(s: string, from: nat, k: nat, i: nat)
    requires from <= k && i < |ImageWords| && MatchesAt(s, k, ImageWords[i])
    ensures RegexTest(s, from)
    decreases k - from
  {
    if k == from {
      AlternativeAtMeans(s, from, 0);
    } else {
      FoundFrom(s, from + 1, k, i);
    }
  }

  /** The left-to-right search succeeds from `from` exactly when an image word
      starts at some position at or after `from`. */
  lemma RegexTestFrom(s: string, from: nat)
    ensures RegexTest(s, from) <==>
            exists k: nat, i :: from <= k && 0 <= i < |ImageWords| && MatchesAt(s, k, ImageWords[i])
  {
    if exists k: nat, i :: from <= k && 0 <= i < |ImageWords| && MatchesAt(s, k, ImageWords[i]) {
      var k: nat, i :| from <= k && 0 <= i < |ImageWords| && MatchesAt(s, k, ImageWords[i]);
      FoundFrom(s, from, k, i);
    }
  }

  /** The search is exactly the unanchored, case-insensitive containment test. */
  lemma RegexTestMeans(s: string)
    ensures RegexTest(s, 0) <==> ContainsImageWord(s)
  {
    RegexTestFrom(s, 0);
  }

  /** `assetFileNames`: take the text after the last '.' of the asset's name
      (the whole name when it has none) and route it to the images folder when
      it contains an image word anywhere, in any case; every result lies under
      `assets/`. */
  function AssetFileNames(name: string): (r: string)
    ensures r == ImagesTemplate <==> ContainsImageWord(LastField(name, '.'))
    ensures r == ImagesTemplate || r == AssetsTemplate
    ensures |r| > 7 && r[..7] == "assets/"
  {
    var ext := LastField(name, '.');
    RegexTestMeans(ext);
    if RegexTest(ext, 0) then ImagesTemplate else AssetsTemplate
  }

  /** Scripts of every kind land in `assets/` with the `.js` extension. */
  lemma ScriptTemplates()
    ensures ChunkFileNames == EntryFileNames
    ensures ChunkFileNames[..7] == "assets/" && ChunkFileNames[|ChunkFileNames| - 3..] == ".js"
  {
  }

  /** The extension of a two-part name is its second part. */
  lemma {:induction false} ExtensionOfTwoParts(base: string, ext: string)
    requires '.' !in base && '.' !in ext
    ensures LastField(base + "." + ext, '.') == ext
  {
    var fields := [base, ext];
    assert Join(fields, '.') == base + "." + ext;
    SplitUnique(base + "." + ext, '.', fields);
  }

  /** The match is unanchored: a compressed SVG (`.svgz`) contains `svg` and so
      goes to the images folder, whatever its case. */
  lemma UnanchoredMatch()
    ensures AssetFileNames("logo.SVGZ") == ImagesTemplate
  {
    ExtensionOfTwoParts("logo", "SVGZ");
    assert "logo" + "." + "SVGZ" == "logo.SVGZ";
    SvgzHasImageWord();
  }

  lemma SvgzHasImageWord()
    ensures RegexTest("SVGZ", 0)
  {
    AlternativeAtMeans("SVGZ", 0, 0);
    assert MatchesAt("SVGZ", 0, ImageWords[3]);
  }

  /** A name without a '.' is tested as a whole: a file named `png` is routed
      as an image. */
  lemma WholeNameAsExtension()
    ensures AssetFileNames("png") == ImagesTemplate
  {
    assert MatchesAt("png", 0, ImageWords[0]);
  }

  /** No image word can start at `k` when the character there (if any) does not
      begin one. */
  lemma {:induction false} NoWordAt(s: string, k: nat)
    requires k >= |s| || Lower(s[k]) !in "pjsgtbi"
    ensures !AlternativeAt(s, k, 0)
  {
    AlternativeAtMeans(s, k, 0);
    forall a | 0 <= a < |ImageWords| ensures !MatchesAt(s, k, ImageWords[a]) {
      assert ImageWords[a][0] in "pjsgtbi";
    }
  }

  /** `tif` is not one of the words (only `tiff` is): such scans go to the
      general assets folder. */
  lemma ShortTiffIsNotAnImage()
    ensures AssetFileNames("scan.tif") == AssetsTemplate
  {
    ExtensionOfTwoParts("scan", "tif");
    assert "scan" + "." + "tif" == "scan.tif";
    TifHasNoImageWord();
  }

  lemma TifHasNoImageWord()
    ensures !RegexTest("tif", 0)
  {
    var ext := "tif";
    NoWordAt(ext, 3);
    NoWordAt(ext, 2);
    assert !RegexTest(ext, 2);
    AlternativeAtMeans(ext, 1, 0);
    forall a | 0 <= a < |ImageWords| ensures !MatchesAt(ext, 1, ImageWords[a]) {
      assert ImageWords[a][0] != 'i' || (a == 7 && Lower(ext[2]) != ImageWords[7][1]);
    }
    assert !RegexTest(ext, 1);
    AlternativeAtMeans(ext, 0, 0);
    forall a | 0 <= a < |ImageWords| ensures !MatchesAt(ext, 0, ImageWords[a]) {
      assert ImageWords[a][0] != 't' || |ImageWords[a]| > |ext|;
    }
  }

  /** `webp` is not among the words either. */
  lemma WebpIsNotAnImage()
    ensures AssetFileNames("hero.webp") == AssetsTemplate
  {
    ExtensionOfTwoParts("hero", "webp");
    assert "hero" + "." + "webp" == "hero.webp";
    WebpHasNoImageWord();
  }

  lemma WebpHasNoImageWord()
    ensures !RegexTest("webp", 0)
  {
    var ext := "webp";
    NoWordAt(ext, 4);
    assert !RegexTest(ext, 4);
    AlternativeAtMeans(ext, 3, 0);
    forall a | 0 <= a < |ImageWords| ensures !MatchesAt(ext, 3, ImageWords[a]) {
      assert ImageWords[a][0] != 'p' || |ImageWords[a]| > 1;
    }
    assert !RegexTest(ext, 3);
    AlternativeAtMeans(ext, 2, 0);
    forall a | 0 <= a < |ImageWords| ensures !MatchesAt(ext, 2, ImageWords[a]) {
      assert ImageWords[a][0] != 'b' || Lower(ext[3]) != ImageWords[a][1];
    }
    assert !RegexTest(ext, 2);
    NoWordAt(ext, 1);
    NoWordAt(ext, 0);
  }
}
