/** What the documented file names mean for the loaded pairs: which picture becomes the left one, which the
    right one, and which files are passed over. */
module LoadedPictures {
  import opened Types
  import opened Counter64
  import opened Text
  import opened ImageProbe
  import opened StereoPairs

  /** Camera, underscore, number with or without leading zeros, extension. */
  function FileName(camera: string, zeros: string, idx: nat, ext: string): string {
    camera + "_" + (zeros + Decimal(idx)) + "." + ext
  }

  predicate ImageExtension(ext: string) {
    Spells(ext, "jpg") || Spells(ext, "jpeg") || Spells(ext, "png") || Spells(ext, "raw")
  }

  /** The bytes of a file; none if it is missing or cannot be read. */
  function Bytes(files: map<string, seq<byte>>, path: string): seq<byte> { if path in files then files[path] else [] }

  predicate StartsWithL(camera: string) { camera != "" && (camera[0] == 'l' || camera[0] == 'L') }
  predicate StartsWithR(camera: string) { camera != "" && (camera[0] == 'r' || camera[0] == 'R') }

  /** A name of the documented form, with a number below 2^64. */
  predicate Proper(zeros: string, idx: nat, ext: string) {
    (forall c :: c in zeros ==> c == '0') && idx < 0x1_0000_0000_0000_0000 && ImageExtension(ext)
  }

  lemma ExtensionsKnown(ext: string)
    ensures ImageExtension(ext) <==> Lower(ext) in {"jpg", "jpeg", "png", "raw"}
  {
    LowerSpells(ext, "jpg");
    LowerSpells(ext, "jpeg");
    LowerSpells(ext, "png");
    LowerSpells(ext, "raw");
  }

  lemma SidesTold(path: string, camera: string, zeros: string, idx: nat, ext: string, i: nat)
    requires Proper(zeros, idx, ext)
    ensures var e := DirEntry(path, FileName(camera, zeros, idx, ext), true);
            && (Serves(e, i, Left) <==> i == idx && StartsWithL(camera))
            && (Serves(e, i, Right) <==> i == idx && StartsWithR(camera))
            && (HasIndex(e, i) <==> i == idx)
  {
    ExtensionsKnown(ext);
    NamesAreUnderstood(path, camera, zeros, idx, ext);
  }

  /** In any directory where no two different files claim one side of one index: the pair of an index shows
      the L file on the left and the R file on the right, each described by its own bytes. */
  lemma PicturesOnTheirSides(listing: seq<DirEntry>, pathL: string, cameraL: string, zerosL: string, extL: string,
                             pathR: string, cameraR: string, zerosR: string, extR: string, idx: nat,
                             files: map<string, seq<byte>>, d: Defaults, pairs: seq<StereoPair>) returns (i: nat)
    requires StartsWithL(cameraL) && StartsWithR(cameraR) && Proper(zerosL, idx, extL) && Proper(zerosR, idx, extR)
    requires DirEntry(pathL, FileName(cameraL, zerosL, idx, extL), true) in listing
    requires DirEntry(pathR, FileName(cameraR, zerosR, idx, extR), true) in listing
    requires Unambiguous(listing) && pathL != "" && pathR != ""
    requires PairsOf(pairs, PlaceAll(listing), files, d)
    ensures i < |pairs|
    ensures pairs[i] == StereoPair(Bytes(files, pathL), Bytes(files, pathR),
                                   Probe(Bytes(files, pathL), d.width, d.height, d.channels),
                                   Probe(Bytes(files, pathR), d.width, d.height, d.channels), idx)
  {
    SidesTold(pathL, cameraL, zerosL, idx, extL, idx);
    SidesTold(pathR, cameraR, zerosR, idx, extR, idx);
    PathsClaimed(listing, idx, Left);
    PathsClaimed(listing, idx, Right);
    var slot := SlotAt(PlaceAll(listing), idx);
    assert slot == Slot(pathL, pathR);
    i := SideShown(pairs, PlaceAll(listing), files, d, idx, Left);
  }

  lemma PlaceOne(e: DirEntry)
    ensures PlaceAll([e]) == Place(map[], e)
  {
    var one := [e];
    assert one[..|one| - 1] == [];
  }

  /** A directory of two such files, in either order, is one pair. */
  lemma TwoFilesOnePair(pathL: string, cameraL: string, zerosL: string, extL: string,
                        pathR: string, cameraR: string, zerosR: string, extR: string, idx: nat, listing: seq<DirEntry>,
                        files: map<string, seq<byte>>, d: Defaults, pairs: seq<StereoPair>)
    requires StartsWithL(cameraL) && StartsWithR(cameraR) && Proper(zerosL, idx, extL) && Proper(zerosR, idx, extR)
    requires var l := DirEntry(pathL, FileName(cameraL, zerosL, idx, extL), true);
             var r := DirEntry(pathR, FileName(cameraR, zerosR, idx, extR), true);
             listing == [l, r] || listing == [r, l]
    requires pathL != "" && pathR != ""
    requires PairsOf(pairs, PlaceAll(listing), files, d)
    ensures pairs == [StereoPair(Bytes(files, pathL), Bytes(files, pathR),
                                 Probe(Bytes(files, pathL), d.width, d.height, d.channels),
                                 Probe(Bytes(files, pathR), d.width, d.height, d.channels), idx)]
  {
    var l := DirEntry(pathL, FileName(cameraL, zerosL, idx, extL), true);
    var r := DirEntry(pathR, FileName(cameraR, zerosR, idx, extR), true);
    assert forall e :: e in listing <==> e == l || e == r;
    SidesTold(pathL, cameraL, zerosL, idx, extL, idx);
    SidesTold(pathR, cameraR, zerosR, idx, extR, idx);
    assert Unambiguous(listing);
    var i := PicturesOnTheirSides(listing, pathL, cameraL, zerosL, extL, pathR, cameraR, zerosR, extR, idx, files, d, pairs);
    forall k | 0 <= k < |pairs|
      ensures pairs[k].pairIndex == idx
    {
      KeysListed(listing, pairs[k].pairIndex);
      SidesTold(pathL, cameraL, zerosL, idx, extL, pairs[k].pairIndex);
      SidesTold(pathR, cameraR, zerosR, idx, extR, pairs[k].pairIndex);
    }
    OnlyOne(pairs, i);
  }

  lemma OnlyOne(pairs: seq<StereoPair>, i: nat)
    requires forall a, b :: 0 <= a < b < |pairs| ==> pairs[a].pairIndex < pairs[b].pairIndex
    requires i < |pairs| && forall k :: 0 <= k < |pairs| ==> pairs[k].pairIndex == pairs[i].pairIndex
    ensures pairs == [pairs[i]]
  {
    SamePlace(pairs, i, 0);
    SamePlace(pairs, i, |pairs| - 1);
  }

  lemma SamePlace(pairs: seq<StereoPair>, i: nat, k: nat)
    requires forall a, b :: 0 <= a < b < |pairs| ==> pairs[a].pairIndex < pairs[b].pairIndex
    requires i < |pairs| && k < |pairs| && pairs[k].pairIndex == pairs[i].pairIndex
    ensures k == i
  {
  }

  lemma FirstIsPaired(pairs: seq<StereoPair>, m: map<nat, Slot>, files: map<string, seq<byte>>, d: Defaults)
    requires PairsOf(pairs, m, files, d) && pairs != []
    ensures Paired(m, pairs[0].pairIndex)
  {
  }

  /** A lone file of either side is shown on both; a camera of any other letter loads nothing. */
  lemma LoneFile(path: string, camera: string, zeros: string, ext: string, idx: nat,
                 files: map<string, seq<byte>>, d: Defaults, pairs: seq<StereoPair>)
    requires Proper(zeros, idx, ext) && path != ""
    requires PairsOf(pairs, PlaceAll([DirEntry(path, FileName(camera, zeros, idx, ext), true)]), files, d)
    ensures var info := Probe(Bytes(files, path), d.width, d.height, d.channels);
            pairs == if StartsWithL(camera) || StartsWithR(camera)
                     then [StereoPair(Bytes(files, path), Bytes(files, path), info, info, idx)] else []
  {
    var e := DirEntry(path, FileName(camera, zeros, idx, ext), true);
    var m := PlaceAll([e]);
    PlaceOne(e);
    ExtensionsKnown(ext);
    NamesAreUnderstood(path, camera, zeros, idx, ext);
    assert m.Keys == {idx};
    if StartsWithL(camera) || StartsWithR(camera) {
      assert Paired(m, idx);
      var i :| 0 <= i < |pairs| && pairs[i].pairIndex == idx;
      OnlyOne(pairs, i);
    } else {
      assert forall i :: !Paired(m, i);
      if pairs != [] { FirstIsPaired(pairs, m, files, d); }
    }
  }

  /** Directories and files whose extension is no image's are passed over. */
  lemma NoImageNoEntry(m: map<nat, Slot>, path: string, stem: string, ext: string, regular: bool)
    requires stem != "" && stem != "." && '.' !in ext && (!regular || !ImageExtension(ext))
    ensures Place(m, DirEntry(path, stem + "." + ext, regular)) == m
  {
    NameSplits(stem, ext);
    ExtensionsKnown(ext);
  }

  lemma NoNumber(camera: string, text: string)
    requires '_' !in text && (text != "" ==> !IsDigit(text[0]) && !IsSpace(text[0]) && text[0] != '+' && text[0] != '-')
    ensures ClassifyStem(camera + "_" + text) == None
  {
    var stem := camera + "_" + text;
    assert stem == camera + ['_'] + text;
    FindLastSeparator(camera, '_', text);
    if text != "" {
      assert "" + ("" + text) == text;
      StoUlThrows("", "", text);
      StemSplits(camera, text);
    }
  }

  /** So are images without an underscore, or without a number behind the last one. */
  lemma NoNumberNoEntry(m: map<nat, Slot>, path: string, stem: string, ext: string, camera: string, text: string)
    requires stem != "" && stem != "." && '.' !in ext && '_' !in text
    requires '_' !in stem || stem == camera + "_" + text
    requires text != "" ==> !IsDigit(text[0]) && !IsSpace(text[0]) && text[0] != '+' && text[0] != '-'
    ensures Place(m, DirEntry(path, stem + "." + ext, true)) == m
  {
    NameSplits(stem, ext);
    if '_' in stem {
      NoNumber(camera, text);
    }
  }
}
