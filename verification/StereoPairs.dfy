/** Pairing the files of a directory into stereo pairs. */
module StereoPairs {
  import opened Types
  import opened Counter64
  import opened Text
  import opened ImageProbe

  datatype DirEntry = DirEntry(path: string, name: string, regular: bool)

  datatype Side = Left | Right | OtherSide

  /** The two paths found for one index; an empty path means none. */
  datatype Slot = Slot(left: string, right: string)

  datatype StereoPair = StereoPair(left: seq<byte>, right: seq<byte>, leftInfo: ImageInfo, rightInfo: ImageInfo, pairIndex: nat)

  datatype Defaults = Defaults(width: int, height: int, channels: int)

  function ExtOf(name: string): string {
    match FindLast(name, '.') case None => "" case Some(p) => Lower(name[p + 1..])
  }

  /** The file name without its extension; a leading dot starts no extension. */
  function Stem(name: string): string {
    if name == ".." then name
    else match FindLast(name, '.') case None => name case Some(p) => if p == 0 then name else name[..p]
  }

  /** The camera is told by the first letter before the last underscore. */
  function SideOf(camera: string): Side {
    if camera == "" then OtherSide
    else if LowerChar(camera[0]) == 'l' then Left
    else if LowerChar(camera[0]) == 'r' then Right else OtherSide
  }

  function ClassifyStem(stem: string): Option<(nat, Side)> {
    match FindLast(stem, '_')
    case None => None
    case Some(us) =>
      if us + 1 == |stem| then None
      else match StoUl(stem[us + 1..]) case None => None case Some(idx) => Some((idx, SideOf(stem[..us])))
  }

  /** The index and side in a file name, None for a file that is skipped. */
  function Classify(e: DirEntry): Option<(nat, Side)> {
    if !e.regular || ExtOf(e.name) !in {"jpg", "jpeg", "png", "raw"} then None else ClassifyStem(Stem(e.name))
  }

  lemma NameSplits(stem: string, ext: string)
    requires stem != "" && stem != "." && '.' !in ext
    ensures Stem(stem + "." + ext) == stem && ExtOf(stem + "." + ext) == Lower(ext)
  {
    var name := stem + "." + ext;
    assert name == stem + ['.'] + ext;
    FindLastSeparator(stem, '.', ext);
    assert name[|stem| + 1..] == ext && name[..|stem|] == stem;
    assert |stem| == 1 ==> name[..1] == stem;
  }

  lemma StemUnderstood(camera: string, zeros: string, idx: nat)
    requires (forall c :: c in zeros ==> c == '0') && idx < WORD
    ensures ClassifyStem(camera + "_" + (zeros + Decimal(idx))) == Some((idx, SideOf(camera)))
  {
    var digits := zeros + Decimal(idx);
    assert "" + zeros + Decimal(idx) + "" == digits;
    StoUlReadsDecimal("", zeros, idx, "");
    StemSplits(camera, digits);
  }

  lemma StemSplits(camera: string, digits: string)
    requires '_' !in digits && digits != ""
    ensures ClassifyStem(camera + "_" + digits)
            == match StoUl(digits) case None => None case Some(idx) => Some((idx, SideOf(camera)))
  {
    var stem := camera + "_" + digits;
    assert stem == camera + ['_'] + digits;
    FindLastSeparator(camera, '_', digits);
    assert stem[|camera| + 1..] == digits && stem[..|camera|] == camera;
  }

  /** The documented file names, `L_001.jpg` and the like: any camera name, a number with or without
      leading zeros, an extension in any letter case. */
  lemma NamesAreUnderstood(path: string, camera: string, zeros: string, idx: nat, ext: string)
    requires (forall c :: c in zeros ==> c == '0') && idx < WORD
    requires Lower(ext) in {"jpg", "jpeg", "png", "raw"}
    ensures Classify(DirEntry(path, camera + "_" + (zeros + Decimal(idx)) + "." + ext, true)) == Some((idx, SideOf(camera)))
  {
    assert forall i :: 0 <= i < |ext| ==> LowerChar(ext[i]) == Lower(ext)[i] && Lower(ext)[i] != '.';
    NameSplits(camera + "_" + (zeros + Decimal(idx)), ext);
    StemUnderstood(camera, zeros, idx);
  }

  function SlotAt(m: map<nat, Slot>, idx: nat): Slot { if idx in m then m[idx] else Slot("", "") }

  /** One round of the loop over the directory: a later file replaces an earlier one. */
  function Place(m: map<nat, Slot>, e: DirEntry): map<nat, Slot> {
    match Classify(e)
    case None => m
    case Some((idx, side)) =>
      var slot := SlotAt(m, idx);
      m[idx := match side case Left => slot.(left := e.path) case Right => slot.(right := e.path) case OtherSide => slot]
  }

  function PlaceAll(listing: seq<DirEntry>): map<nat, Slot> {
    if listing == [] then map[] else Place(PlaceAll(listing[..|listing| - 1]), listing[|listing| - 1])
  }

  method BuildIndex(listing: seq<DirEntry>) returns (byIndex: map<nat, Slot>)
    ensures byIndex == PlaceAll(listing)
  {
    byIndex := map[];
    var i := 0;
    while i < |listing|
      invariant 0 <= i <= |listing| && byIndex == PlaceAll(listing[..i])
    {
      assert listing[..i + 1][..i] == listing[..i];
      byIndex := Place(byIndex, listing[i]);
      i := i + 1;
    }
    assert listing[..i] == listing;
  }

  // ---------------------------------------------------------------------------
  // Independence of the directory order

  predicate Serves(e: DirEntry, idx: nat, side: Side) { Classify(e) == Some((idx, side)) }

  /** No two listed files claim the same side of the same index, unless they are one file. */
  ghost predicate Unambiguous(listing: seq<DirEntry>) {
    forall e, f, idx, side ::
      e in listing && f in listing && Serves(e, idx, side) && Serves(f, idx, side) && side != OtherSide ==> e.path == f.path
  }

  ghost predicate OrderIndependent(listing: seq<DirEntry>) {
    forall p :: multiset(p) == multiset(listing) ==> PlaceAll(p) == PlaceAll(listing)
  }

  function PathOf(s: Slot, side: Side): string { if side == Left then s.left else s.right }

  predicate HasIndex(e: DirEntry, idx: nat) { Classify(e).Some? && Classify(e).value.0 == idx }

  ghost predicate Listed(listing: seq<DirEntry>, idx: nat) {
    exists e :: e in listing && HasIndex(e, idx)
  }

  ghost predicate Claimed(listing: seq<DirEntry>, idx: nat, side: Side) {
    exists e :: e in listing && Serves(e, idx, side)
  }

  ghost predicate ClaimedAs(listing: seq<DirEntry>, idx: nat, side: Side, path: string) {
    exists e :: e in listing && Serves(e, idx, side) && e.path == path
  }

  lemma {:induction false} KeysListed(listing: seq<DirEntry>, idx: nat)
    ensures idx in PlaceAll(listing) <==> Listed(listing, idx)
  {
    if listing != [] {
      var init, last := listing[..|listing| - 1], listing[|listing| - 1];
      KeysListed(init, idx);
      assert forall e :: e in listing <==> e in init || e == last;
      assert idx in PlaceAll(listing) <==> idx in PlaceAll(init) || HasIndex(last, idx);
    }
  }

  /** One file sets the side it claims and nothing else. */
  lemma PlaceSets(m: map<nat, Slot>, e: DirEntry, idx: nat, side: Side)
    requires side != OtherSide
    ensures PathOf(SlotAt(Place(m, e), idx), side) == if Serves(e, idx, side) then e.path else PathOf(SlotAt(m, idx), side)
  {
  }

  /** What the loop leaves behind, whatever the order: the path of some listed file that claims the
      side, or nothing when none does. */
  lemma {:induction false} PathsClaimed(listing: seq<DirEntry>, idx: nat, side: Side)
    requires side != OtherSide
    ensures var path := PathOf(SlotAt(PlaceAll(listing), idx), side);
            if Claimed(listing, idx, side) then ClaimedAs(listing, idx, side, path) else path == ""
  {
    if listing != [] {
      var init, last := listing[..|listing| - 1], listing[|listing| - 1];
      PathsClaimed(init, idx, side);
      assert forall e :: e in listing <==> e in init || e == last;
      PlaceSets(PlaceAll(init), last, idx, side);
      if Serves(last, idx, side) {
        assert last in listing && last.path == PathOf(SlotAt(PlaceAll(listing), idx), side);
      }
    }
  }

  lemma SamePlaces(p: seq<DirEntry>, q: seq<DirEntry>)
    requires multiset(p) == multiset(q) && Unambiguous(q)
    ensures PlaceAll(p) == PlaceAll(q)
  {
    assert forall e :: e in p <==> e in multiset(p);
    assert forall e :: e in q <==> e in multiset(q);
    forall idx: nat
      ensures idx in PlaceAll(p) <==> idx in PlaceAll(q)
      ensures SlotAt(PlaceAll(p), idx) == SlotAt(PlaceAll(q), idx)
    {
      SamePath(p, q, idx, Left);
      SamePath(p, q, idx, Right);
    }
    assert PlaceAll(p).Keys == PlaceAll(q).Keys;
    assert forall idx :: idx in PlaceAll(p) ==> PlaceAll(p)[idx] == SlotAt(PlaceAll(p), idx) && PlaceAll(q)[idx] == SlotAt(PlaceAll(q), idx);
  }

  lemma SamePath(p: seq<DirEntry>, q: seq<DirEntry>, idx: nat, side: Side)
    requires (forall e :: e in p <==> e in q) && Unambiguous(q) && side != OtherSide
    ensures idx in PlaceAll(p) <==> idx in PlaceAll(q)
    ensures PathOf(SlotAt(PlaceAll(p), idx), side) == PathOf(SlotAt(PlaceAll(q), idx), side)
  {
    KeysListed(p, idx);
    KeysListed(q, idx);
    PathsClaimed(p, idx, side);
    PathsClaimed(q, idx, side);
  }

  /** A listing rearranged so that one of its files comes last. */
  lemma MoveToEnd(listing: seq<DirEntry>, e: DirEntry) returns (p: seq<DirEntry>)
    requires e in listing
    ensures multiset(p) == multiset(listing) && p != [] && p[|p| - 1] == e
  {
    var i :| 0 <= i < |listing| && listing[i] == e;
    p := listing[..i] + listing[i + 1..] + [e];
    assert listing == listing[..i] + [e] + listing[i + 1..];
  }

  lemma LastWins(p: seq<DirEntry>, idx: nat, side: Side)
    requires p != [] && Serves(p[|p| - 1], idx, side) && side != OtherSide
    ensures PathOf(SlotAt(PlaceAll(p), idx), side) == p[|p| - 1].path
  {
  }

  /** The index is the same for every order of the directory exactly when the listing is unambiguous. */
  lemma OrderDoesNotMatter(listing: seq<DirEntry>)
    ensures OrderIndependent(listing) <==> Unambiguous(listing)
  {
    if Unambiguous(listing) {
      forall p | multiset(p) == multiset(listing)
        ensures PlaceAll(p) == PlaceAll(listing)
      {
        SamePlaces(p, listing);
      }
    } else {
      var e, f, idx, side :| e in listing && f in listing && Serves(e, idx, side) && Serves(f, idx, side)
        && side != OtherSide && e.path != f.path;
      var p := MoveToEnd(listing, e);
      var q := MoveToEnd(listing, f);
      LastWins(p, idx, side);
      LastWins(q, idx, side);
      assert PlaceAll(p) != PlaceAll(q);
    }
  }

  // ---------------------------------------------------------------------------
  // From the index to the pairs

  /** What can be read from a path: nothing when the file is missing, unreadable or empty. */
  function Content(files: map<string, seq<byte>>, path: string): seq<byte> {
    if path != "" && path in files then files[path] else []
  }

  /** A lone side is used for both. */
  function MakePair(idx: nat, s: Slot, files: map<string, seq<byte>>, d: Defaults): StereoPair {
    var left := Content(files, if s.left != "" then s.left else s.right);
    var right := Content(files, if s.right != "" then s.right else s.left);
    var leftInfo := Probe(left, d.width, d.height, d.channels);
    var rightInfo := if s.left != "" && s.right != "" then Probe(right, d.width, d.height, d.channels) else leftInfo;
    StereoPair(left, right, leftInfo, rightInfo, idx)
  }

  predicate Paired(m: map<nat, Slot>, idx: nat) { idx in m && (m[idx].left != "" || m[idx].right != "") }

  /** Strictly ascending, one pair for each index with a file, each made from the files of its index. */
  ghost predicate PairsOf(pairs: seq<StereoPair>, m: map<nat, Slot>, files: map<string, seq<byte>>, d: Defaults) {
    && (forall i, j :: 0 <= i < j < |pairs| ==> pairs[i].pairIndex < pairs[j].pairIndex)
    && (forall i :: 0 <= i < |pairs| ==>
          Paired(m, pairs[i].pairIndex) && pairs[i] == MakePair(pairs[i].pairIndex, m[pairs[i].pairIndex], files, d))
    && (forall idx :: Paired(m, idx) ==> exists i :: 0 <= i < |pairs| && pairs[i].pairIndex == idx)
  }

  lemma {:induction false} Smallest(s: set<nat>) returns (k: nat)
    requires s != {}
    ensures k in s && forall o :: o in s ==> k <= o
  {
    k :| k in s;
    if s != {k} {
      var rest := s - {k};
      var l := Smallest(rest);
      assert s == rest + {k};
      if l < k { k := l; }
    }
  }

  /** The loop over the sorted index. */
  method MakePairs(m: map<nat, Slot>, files: map<string, seq<byte>>, d: Defaults) returns (pairs: seq<StereoPair>)
    ensures PairsOf(pairs, m, files, d)
  {
    pairs := [];
    var rest := m.Keys;
    while rest != {}
      invariant rest <= m.Keys
      invariant forall i, j :: 0 <= i < j < |pairs| ==> pairs[i].pairIndex < pairs[j].pairIndex
      invariant forall i, k :: 0 <= i < |pairs| && k in rest ==> pairs[i].pairIndex < k
      invariant forall i :: 0 <= i < |pairs| ==>
        Paired(m, pairs[i].pairIndex) && pairs[i] == MakePair(pairs[i].pairIndex, m[pairs[i].pairIndex], files, d)
      invariant forall idx :: Paired(m, idx) && idx !in rest ==> exists i :: 0 <= i < |pairs| && pairs[i].pairIndex == idx
    {
      ghost var smallest := Smallest(rest);
      var k :| k in rest && forall o :: o in rest ==> k <= o;
      ghost var before := pairs;
      rest := rest - {k};
      var slot := m[k];
      var haveLeft, haveRight := slot.left != "", slot.right != "";
      if haveLeft || haveRight {
        var left: seq<byte>, right: seq<byte> := [], [];
        if haveLeft { left := Content(files, slot.left); }
        if haveRight { right := Content(files, slot.right); }
        if haveLeft && !haveRight {
          right := left;
        } else if haveRight && !haveLeft {
          left := right;
        }
        var leftInfo := ProbeImage(left, d.width, d.height, d.channels);
        var rightInfo := leftInfo;
        if haveLeft && haveRight {
          rightInfo := ProbeImage(right, d.width, d.height, d.channels);
        }
        pairs := pairs + [StereoPair(left, right, leftInfo, rightInfo, k)];
        assert pairs[|before|].pairIndex == k;
        assert forall i :: 0 <= i < |before| ==> pairs[i] == before[i];
      }
    }
  }

  ghost predicate Ascending(x: seq<nat>) {
    forall i, j :: 0 <= i < j < |x| ==> x[i] < x[j]
  }

  /** The last number is the largest, and it stands nowhere else. */
  lemma LastIsLargest(x: seq<nat>)
    requires Ascending(x) && x != []
    ensures Ascending(x[..|x| - 1])
    ensures forall v :: v in x ==> v <= x[|x| - 1]
    ensures forall v :: v in x[..|x| - 1] <==> v in x && v != x[|x| - 1]
  {
    forall v | v in x
      ensures v <= x[|x| - 1]
      ensures v in x[..|x| - 1] || v == x[|x| - 1]
    {
      var i :| 0 <= i < |x| && x[i] == v;
      if i < |x| - 1 { assert x[..|x| - 1][i] == v; }
    }
  }

  lemma {:induction false} AscendingUnique(x: seq<nat>, y: seq<nat>)
    requires Ascending(x) && Ascending(y) && forall v :: v in x <==> v in y
    ensures x == y
    decreases |x|
  {
    assert y != [] ==> y[0] in x;
    if x != [] {
      assert x[|x| - 1] in y;
      var x', a, y', b := x[..|x| - 1], x[|x| - 1], y[..|y| - 1], y[|y| - 1];
      LastIsLargest(x);
      LastIsLargest(y);
      assert b in y;
      assert b in x;
      assert a == b;
      forall v
        ensures v in x' <==> v in y'
      {
        assert v in x <==> v in y;
      }
      AscendingUnique(x', y');
      assert x == x' + [a] && y == y' + [b];
    }
  }

  function Indices(pairs: seq<StereoPair>): seq<nat> { seq(|pairs|, i requires 0 <= i < |pairs| => pairs[i].pairIndex) }

  lemma IndicesOf(pairs: seq<StereoPair>, m: map<nat, Slot>, files: map<string, seq<byte>>, d: Defaults)
    requires PairsOf(pairs, m, files, d)
    ensures Ascending(Indices(pairs)) && forall idx :: idx in Indices(pairs) <==> Paired(m, idx)
  {
    forall idx | Paired(m, idx)
      ensures idx in Indices(pairs)
    {
      var i :| 0 <= i < |pairs| && pairs[i].pairIndex == idx;
      assert Indices(pairs)[i] == idx;
    }
  }

  /** The pair list is determined by the index. */
  lemma PairsUnique(a: seq<StereoPair>, b: seq<StereoPair>, m: map<nat, Slot>, files: map<string, seq<byte>>, d: Defaults)
    requires PairsOf(a, m, files, d) && PairsOf(b, m, files, d)
    ensures a == b
  {
    IndicesOf(a, m, files, d);
    IndicesOf(b, m, files, d);
    AscendingUnique(Indices(a), Indices(b));
    assert |a| == |Indices(a)| == |b|;
    forall i | 0 <= i < |a|
      ensures a[i] == b[i]
    {
      assert a[i].pairIndex == Indices(a)[i] == Indices(b)[i] == b[i].pairIndex;
    }
  }

  /** The whole load. */
  method Load(listing: seq<DirEntry>, files: map<string, seq<byte>>, d: Defaults) returns (pairs: seq<StereoPair>)
    ensures PairsOf(pairs, PlaceAll(listing), files, d)
  {
    var byIndex := BuildIndex(listing);
    pairs := MakePairs(byIndex, files, d);
  }

  /** Two scans of one unambiguous directory load the same pairs in the same order. */
  lemma LoadIsDeterministic(p: seq<DirEntry>, q: seq<DirEntry>, a: seq<StereoPair>, b: seq<StereoPair>,
                            files: map<string, seq<byte>>, d: Defaults)
    requires multiset(p) == multiset(q) && Unambiguous(q)
    requires PairsOf(a, PlaceAll(p), files, d) && PairsOf(b, PlaceAll(q), files, d)
    ensures a == b
  {
    SamePlaces(p, q);
    PairsUnique(a, b, PlaceAll(q), files, d);
  }

  // ---------------------------------------------------------------------------
  // The same for the pairs themselves

  lemma {:induction false} Sorted(s: set<nat>) returns (x: seq<nat>)
    ensures Ascending(x) && forall v :: v in x <==> v in s
  {
    x := [];
    if s != {} {
      var k := Smallest(s);
      var rest := Sorted(s - {k});
      x := [k] + rest;
      assert forall v :: v in x <==> v == k || v in rest;
      assert forall i :: 0 <= i < |rest| ==> rest[i] in rest;
    }
  }

  lemma PairsExist(m: map<nat, Slot>, files: map<string, seq<byte>>, d: Defaults) returns (pairs: seq<StereoPair>)
    ensures PairsOf(pairs, m, files, d)
  {
    var x := Sorted(set idx | idx in m && Paired(m, idx));
    assert forall i :: 0 <= i < |x| ==> x[i] in x;
    pairs := seq(|x|, i requires 0 <= i < |x| => MakePair(x[i], m[x[i]], files, d));
    forall idx | Paired(m, idx)
      ensures exists i :: 0 <= i < |pairs| && pairs[i].pairIndex == idx
    {
      assert idx in x;
      var i :| 0 <= i < |x| && x[i] == idx;
      assert pairs[i].pairIndex == idx;
    }
  }

  /** Whatever the files hold, any two scans of the directory load the same pairs. */
  ghost predicate LoadsAlike(listing: seq<DirEntry>) {
    forall p, q, files, d, a, b ::
      (multiset(p) == multiset(listing) && multiset(q) == multiset(listing)
       && PairsOf(a, PlaceAll(p), files, d) && PairsOf(b, PlaceAll(q), files, d)) ==> a == b
  }

  /** The picture of one side comes from the path filed for it. */
  lemma SideShown(pairs: seq<StereoPair>, m: map<nat, Slot>, files: map<string, seq<byte>>, d: Defaults, idx: nat, side: Side)
    returns (i: nat)
    requires PairsOf(pairs, m, files, d) && side != OtherSide && PathOf(SlotAt(m, idx), side) != ""
    ensures i < |pairs| && pairs[i].pairIndex == idx
    ensures Picture(pairs[i], side) == Content(files, PathOf(SlotAt(m, idx), side))
  {
    assert Paired(m, idx);
    i :| 0 <= i < |pairs| && pairs[i].pairIndex == idx;
  }

  function Picture(p: StereoPair, side: Side): seq<byte> { if side == Left then p.left else p.right }

  /** The loaded pairs depend on the directory order for some contents of the files exactly when two
      different files claim one side of one index. */
  lemma PairsDoNotDependOnOrder(listing: seq<DirEntry>)
    requires forall e :: e in listing ==> e.path != ""
    ensures LoadsAlike(listing) <==> Unambiguous(listing)
  {
    if Unambiguous(listing) {
      forall p, q, files, d, a, b | multiset(p) == multiset(listing) && multiset(q) == multiset(listing)
          && PairsOf(a, PlaceAll(p), files, d) && PairsOf(b, PlaceAll(q), files, d)
        ensures a == b
      {
        SamePlaces(p, listing);
        SamePlaces(q, listing);
        PairsUnique(a, b, PlaceAll(listing), files, d);
      }
    } else {
      var e, f, idx, side :| e in listing && f in listing && Serves(e, idx, side) && Serves(f, idx, side)
        && side != OtherSide && e.path != f.path;
      LoadsDiffer(listing, e, f, idx, side);
    }
  }

  lemma LoadsDiffer(listing: seq<DirEntry>, e: DirEntry, f: DirEntry, idx: nat, side: Side)
    requires e in listing && f in listing && Serves(e, idx, side) && Serves(f, idx, side)
    requires side != OtherSide && e.path != f.path && e.path != "" && f.path != ""
    ensures !LoadsAlike(listing)
  {
    var files, d := map[e.path := [0 as byte]], Defaults(0, 0, 0);
    var p := MoveToEnd(listing, e);
    var q := MoveToEnd(listing, f);
    LastWins(p, idx, side);
    LastWins(q, idx, side);
    var a := PairsExist(PlaceAll(p), files, d);
    var b := PairsExist(PlaceAll(q), files, d);
    var i := SideShown(a, PlaceAll(p), files, d, idx, side);
    var j := SideShown(b, PlaceAll(q), files, d, idx, side);
    assert Picture(a[i], side) == [0] && Picture(b[j], side) == [];
    assert a == b ==> i == j;
  }
}
