/** JPEG images as a server writes them (annex B of ITU-T T.81), and the proof of what the
    decoder hands to the browser: the image itself, with the tables that it lacks taken from
    the images before it. */
module JPEGImages {
  import opened Bytes
  import opened Resume
  import opened Tiling
  import opened JPEGDecoding

  // ----- images and their bytes ---------------------------------------------------------------------

  datatype Part =
    | Mark(kind: Byte)
    | Marked(kind: Byte, body: seq<Byte>)
    | Scan(header: seq<Byte>, data: seq<Byte>)

  function KindOf(p: Part): Byte {
    if p.Scan? then 0xDA else p.kind
  }

  predicate Standalone(kind: Byte) {
    kind == 0x01 || 0xD0 <= kind <= 0xD9
  }

  /** In entropy-coded data a byte 0xFF is followed by a stuffed zero or is a restart marker. */
  predicate Stuffed(data: seq<Byte>) {
    forall i :: 0 <= i < |data| && data[i] == 0xFF ==>
      i + 1 < |data| && (data[i + 1] == 0 || 0xD0 <= data[i + 1] <= 0xD7)
  }

  predicate PartOk(p: Part) {
    match p
    case Mark(kind) => Standalone(kind)
    case Marked(kind, body) => !Standalone(kind) && kind != 0xDA && |body| + 2 < 0x1_0000
    case Scan(header, data) => |header| + 2 < 0x1_0000 && Stuffed(data)
  }

  function Length(n: nat): (bytes: seq<Byte>)
    requires n + 2 < 0x1_0000
    ensures |bytes| == 2
  {
    [(n + 2) / 256, (n + 2) % 256]
  }

  function Written(p: Part): (bytes: seq<Byte>)
    requires PartOk(p)
    ensures |bytes| >= 2 && bytes[0] == 0xFF && bytes[1] == KindOf(p)
  {
    match p
    case Mark(kind) => [0xFF, kind]
    case Marked(kind, body) => [0xFF, kind] + Length(|body|) + body
    case Scan(header, data) => [0xFF, 0xDA] + Length(|header|) + header + data
  }

  /** Parts one behind the other. */
  function WrittenAll(parts: seq<Part>): seq<Byte>
    requires forall p <- parts :: PartOk(p)
  {
    if parts == [] then [] else Written(parts[0]) + WrittenAll(parts[1..])
  }

  /** What follows a scan is a marker that can follow a scan. */
  predicate Follows(parts: seq<Part>) {
    forall i :: 0 <= i < |parts| - 1 && parts[i].Scan? ==>
      KindOf(parts[i + 1]) != 0 && !(0xD0 <= KindOf(parts[i + 1]) <= 0xD7)
  }

  /** An image ends with the first end-of-image marker. */
  predicate ImageOk(parts: seq<Part>) {
    && parts != [] && (forall p <- parts :: PartOk(p)) && Follows(parts)
    && forall i :: 0 <= i < |parts| ==> (KindOf(parts[i]) == 0xD9 <==> i == |parts| - 1)
  }

  predicate IsFrame(p: Part) {
    KindOf(p) in {0xC0, 0xC2}
  }

  predicate FirstFrame(parts: seq<Part>, i: nat) {
    i < |parts| && IsFrame(parts[i]) && forall k :: 0 <= k < i ==> !IsFrame(parts[k])
  }

  // ----- what is handed over and remembered -------------------------------------------------------------

  /** The parts of one kind, in order. */
  function Select(parts: seq<Part>, kind: Byte): (r: seq<Part>)
    ensures forall p <- r :: p in parts
  {
    if parts == [] then []
    else
      var n := |parts| - 1;
      Select(parts[..n], kind) + if KindOf(parts[n]) == kind then [parts[n]] else []
  }

  predicate Lacks(parts: seq<Part>, kind: Byte) {
    forall p <- parts :: KindOf(p) != kind
  }

  /** The tables of the last image that had any. */
  function Latest(images: seq<seq<Part>>, kind: Byte): (r: seq<Part>)
    ensures forall p <- r :: exists image <- images :: p in image
  {
    if images == [] then []
    else
      var n := |images| - 1;
      if Lacks(images[n], kind) then Latest(images[..n], kind) else Select(images[n], kind)
  }

  /** Huffman tables and then quantization tables, where the image lacks them, right behind
      its frame header. */
  function Filled(parts: seq<Part>, i: nat, huffman: seq<Part>, quant: seq<Part>): seq<Part>
    requires i < |parts|
  {
    parts[..i + 1] + (if Lacks(parts, 0xC4) then huffman else []) + (if Lacks(parts, 0xDB) then quant else [])
    + parts[i + 1..]
  }

  function Pieces(parts: seq<Part>): (r: seq<seq<Byte>>)
    requires forall p <- parts :: PartOk(p)
    ensures |r| == |parts| && forall k :: 0 <= k < |r| ==> r[k] == Written(parts[k]) && |r[k]| >= 2
  {
    seq(|parts|, k requires 0 <= k < |parts| => Written(parts[k]))
  }

  // ----- one segment --------------------------------------------------------------------------------------

  lemma LengthBack(n: nat)
    requires n + 2 < 0x1_0000
    ensures BigEndian(Length(n)) == n + 2
  {
    var bytes := Length(n);
    assert bytes[..1][..0] == [];
    assert BigEndian(bytes[..1]) == bytes[0];
  }

  lemma {:induction false} ScanBack(input: seq<Byte>, k: nat, end: nat)
    requires k <= end && end + 2 <= |input| && input[end] == 0xFF
    requires input[end + 1] != 0 && !(0xD0 <= input[end + 1] <= 0xD7)
    requires forall i :: k <= i < end && input[i] == 0xFF ==>
               i + 1 < end && (input[i + 1] == 0 || 0xD0 <= input[i + 1] <= 0xD7)
    ensures ScanEnd(input, k) == Ends(end)
    decreases end - k
  {
    if k < end {
      assert !EndsScan(input[k], input[k + 1]);
      ScanBack(input, k + 1, end);
    }
  }

  /** The bytes behind a part let its end be seen. */
  predicate Behind(p: Part, tail: seq<Byte>) {
    p.Scan? ==> |tail| >= 2 && tail[0] == 0xFF && tail[1] != 0 && !(0xD0 <= tail[1] <= 0xD7)
  }

  lemma SegmentBack(p: Part, tail: seq<Byte>)
    requires PartOk(p) && Behind(p, tail)
    ensures Segment(Written(p) + tail) == Ends(|Written(p)|) && (Written(p) + tail)[..|Written(p)|] == Written(p)
  {
    var input := Written(p) + tail;
    if !p.Mark? {
      var n := if p.Scan? then |p.header| else |p.body|;
      LengthBack(n);
      assert input[2..4] == Length(n);
      if p.Scan? {
        ScanTells(p, tail);
      }
    }
  }

  lemma ScanTells(p: Part, tail: seq<Byte>)
    requires PartOk(p) && p.Scan? && Behind(p, tail)
    ensures ScanEnd(Written(p) + tail, 4 + |p.header|) == Ends(|Written(p)|)
  {
    var input, start := Written(p) + tail, 4 + |p.header|;
    forall i | start <= i < |Written(p)| && input[i] == 0xFF
      ensures i + 1 < |Written(p)| && (input[i + 1] == 0 || 0xD0 <= input[i + 1] <= 0xD7)
    {
      assert input[i] == p.data[i - start];
      assert input[i + 1] == p.data[i - start + 1];
    }
    ScanBack(input, start, |Written(p)|);
  }

  // ----- the segments of an image -------------------------------------------------------------------------

  lemma FirstBytes(parts: seq<Part>, more: seq<Byte>)
    requires (forall p <- parts :: PartOk(p)) && parts != []
    ensures var input := WrittenAll(parts) + more;
            |input| >= 2 && input[0] == 0xFF && input[1] == KindOf(parts[0])
  {
  }

  lemma UnderWay(done: seq<Part>, parts: seq<Part>, quant: seq<seq<Byte>>, huffman: seq<seq<Byte>>)
    requires ImageOk(done + parts) && (forall p <- done :: PartOk(p))
    ensures parts != [] ==> Resting(State(Pieces(done), quant, huffman))
    ensures parts == [] ==> WellFormed(Pieces(done)) && Complete(State(Pieces(done), quant, huffman))
  {
    hide PartOk, Follows, Written;
    if done != [] {
      var n := |done| - 1;
      assert (done + parts)[n] == done[n];
      assert Pieces(done)[n][1] == KindOf(done[n]);
    }
  }

  lemma AllOk(done: seq<Part>, parts: seq<Part>)
    requires ImageOk(done + parts)
    ensures (forall p <- done :: PartOk(p)) && forall p <- parts :: PartOk(p)
    ensures |parts| >= 2 && parts[0].Scan? ==> KindOf(parts[1]) != 0 && !(0xD0 <= KindOf(parts[1]) <= 0xD7)
    ensures parts != [] ==> (KindOf(parts[0]) == 0xD9 <==> |parts| == 1)
  {
    var all := done + parts;
    forall p <- done ensures PartOk(p) { assert p in all; }
    forall p <- parts ensures PartOk(p) { assert p in all; }
    if parts != [] {
      assert all[|done|] == parts[0];
      assert |parts| >= 2 ==> all[|done| + 1] == parts[1];
    }
  }

  /** All parts are taken off the input, as they were written. */
  lemma {:induction false} PartsBack(r: Rect, done: seq<Part>, parts: seq<Part>, quant: seq<seq<Byte>>,
                                     huffman: seq<seq<Byte>>, more: seq<Byte>)
    requires Steady(Segments(r)) && ImageOk(done + parts)
    ensures (forall p <- done :: PartOk(p)) && (forall p <- parts :: PartOk(p))
    ensures Run(Segments(r), State(Pieces(done), quant, huffman), WrittenAll(parts) + more)
         == Run(Segments(r), State(Pieces(done + parts), quant, huffman), more)
    decreases |parts|
  {
    hide ImageOk, Follows, Segment, Segments, SegmentStep, Written, PartOk, WellFormed, Complete, Resting, Steady, Run;
    AllOk(done, parts);
    UnderWay(done, parts, quant, huffman);
    var s, input := State(Pieces(done), quant, huffman), WrittenAll(parts) + more;
    if parts == [] {
      assert input == more && done + parts == done;
    } else {
      var p, tail := parts[0], WrittenAll(parts[1..]) + more;
      assert input == Written(p) + tail;
      if parts[1..] != [] {
        FirstBytes(parts[1..], more);
      }
      SegmentBack(p, tail);
      SegmentTurn(r, s, input);
      RunTakes(Segments(r), s, input);
      assert input[|Written(p)|..] == tail;
      assert done + [p] + parts[1..] == done + parts;
      AllOk(done + [p], parts[1..]);
      assert Pieces(done) + [Written(p)] == Pieces(done + [p]);
      AfterNothing(Run(Segments(r), State(Pieces(done + [p]), quant, huffman), tail));
      PartsBack(r, done + [p], parts[1..], quant, huffman, more);
    }
  }

  // ----- tables ---------------------------------------------------------------------------------------------

  lemma {:induction false} SelectPieces(parts: seq<Part>, kind: Byte)
    requires forall p <- parts :: PartOk(p)
    ensures OfKind(Pieces(parts), kind) == Pieces(Select(parts, kind))
    ensures Select(parts, kind) == [] <==> Lacks(parts, kind)
    decreases |parts|
  {
    hide PartOk, Written;
    SelectLacks(parts, kind);
    if parts != [] {
      var n := |parts| - 1;
      SelectPieces(parts[..n], kind);
      assert Pieces(parts)[..n] == Pieces(parts[..n]);
    }
  }

  lemma {:induction false} SelectLacks(parts: seq<Part>, kind: Byte)
    ensures Select(parts, kind) == [] <==> Lacks(parts, kind)
    decreases |parts|
  {
    if parts != [] {
      var n := |parts| - 1;
      SelectLacks(parts[..n], kind);
      assert parts == parts[..n] + [parts[n]];
    }
  }

  lemma FrameThere(parts: seq<Part>, i: nat)
    requires FirstFrame(parts, i)
    ensures i < |parts|
  {
  }

  lemma FramePieces(parts: seq<Part>)
    requires forall p <- parts :: PartOk(p)
    ensures forall i :: FirstFrame(parts, i) ==> FrameAt(Pieces(parts)) == i
    ensures (forall p <- parts :: !IsFrame(p)) <==> FrameAt(Pieces(parts)) == |parts|
  {
    hide PartOk, Written;
    var at_ := FrameAt(Pieces(parts));
    if at_ < |parts| {
      assert IsFrame(parts[at_]);
    }
    forall k | 0 <= k < at_ ensures !IsFrame(parts[k]) {
      assert Pieces(parts)[k][1] == KindOf(parts[k]);
    }
  }

  lemma {:induction false} FlatPieces(parts: seq<Part>)
    requires forall p <- parts :: PartOk(p)
    ensures Flat(Pieces(parts)) == WrittenAll(parts)
    decreases |parts|
  {
    hide PartOk, Written;
    if parts != [] {
      var n := |parts| - 1;
      FlatPieces(parts[..n]);
      assert Pieces(parts)[..n] == Pieces(parts[..n]);
      assert parts[..n] + [parts[n]] == parts;
      WrittenParts(parts[..n], [parts[n]]);
      assert WrittenAll([parts[n]]) == Written(parts[n]);
    }
  }

  lemma {:induction false} WrittenParts(a: seq<Part>, b: seq<Part>)
    requires (forall p <- a :: PartOk(p)) && (forall p <- b :: PartOk(p))
    ensures WrittenAll(a + b) == WrittenAll(a) + WrittenAll(b)
    decreases |a|
  {
    hide PartOk, Written;
    if a == [] {
      assert a + b == b;
    } else {
      assert (a + b)[0] == a[0] && (a + b)[1..] == a[1..] + b;
      WrittenParts(a[1..], b);
    }
  }

  lemma PiecesParts(a: seq<Part>, b: seq<Part>)
    requires (forall p <- a :: PartOk(p)) && (forall p <- b :: PartOk(p))
    ensures (forall p <- a + b :: PartOk(p)) && Pieces(a + b) == Pieces(a) + Pieces(b)
  {
    hide PartOk, Written;
  }

  lemma SpliceTwice(all: seq<seq<Byte>>, i: nat, q: seq<seq<Byte>>, h: seq<seq<Byte>>)
    requires i <= |all|
    ensures Splice(Splice(all, i, q), i, h) == all[..i] + h + q + all[i..]
  {
  }

  lemma SpliceNothing(all: seq<seq<Byte>>, i: nat)
    requires i <= |all|
    ensures Splice(all, i, []) == all
  {
  }

  lemma SplicedTables(s: State)
    requires (forall x <- s.segments :: |x| >= 2) && FrameAt(s.segments) < |s.segments|
    ensures var at_ := FrameAt(s.segments) + 1;
            Completed(s)
            == s.segments[..at_] + (if OfKind(s.segments, DHT) == [] then s.huffmanTables else [])
               + (if OfKind(s.segments, DQT) == [] then s.quantTables else []) + s.segments[at_..]
  {
    hide FrameAt, OfKind;
    var all, at_ := s.segments, FrameAt(s.segments) + 1;
    assert at_ <= |Splice(all, at_, s.quantTables)|;
    hide Splice;
    var q := if OfKind(all, DQT) == [] then s.quantTables else [];
    var h := if OfKind(all, DHT) == [] then s.huffmanTables else [];
    SpliceNothing(all, at_);
    SpliceNothing(if OfKind(all, DQT) == [] then Splice(all, at_, s.quantTables) else all, at_);
    SpliceTwice(all, at_, q, h);
  }

  lemma FilledPieces(parts: seq<Part>, i: nat, huffman: seq<Part>, quant: seq<Part>)
    requires i < |parts| && (forall p <- parts :: PartOk(p))
    requires (forall p <- huffman :: PartOk(p)) && (forall p <- quant :: PartOk(p))
    ensures forall p <- Filled(parts, i, huffman, quant) :: PartOk(p)
    ensures Pieces(Filled(parts, i, huffman, quant))
         == Pieces(parts)[..i + 1] + (if Lacks(parts, 0xC4) then Pieces(huffman) else [])
            + (if Lacks(parts, 0xDB) then Pieces(quant) else []) + Pieces(parts)[i + 1..]
  {
    hide PartOk, Written, Lacks, Pieces;
    var h, q := if Lacks(parts, 0xC4) then huffman else [], if Lacks(parts, 0xDB) then quant else [];
    PiecesParts(parts[..i + 1], h);
    PiecesParts(parts[..i + 1] + h, q);
    PiecesParts(parts[..i + 1] + h + q, parts[i + 1..]);
    assert parts[..i + 1] + parts[i + 1..] == parts;
    PiecesParts(parts[..i + 1], parts[i + 1..]);
    PiecesCount(parts[..i + 1]);
    PiecesCount([]);
  }

  lemma PiecesCount(parts: seq<Part>)
    requires forall p <- parts :: PartOk(p)
    ensures |Pieces(parts)| == |parts|
  {
  }

  lemma CompletedPieces(parts: seq<Part>, i: nat, huffman: seq<Part>, quant: seq<Part>)
    requires FirstFrame(parts, i) && (forall p <- parts :: PartOk(p))
    requires (forall p <- huffman :: PartOk(p)) && (forall p <- quant :: PartOk(p))
    ensures forall p <- Filled(parts, i, huffman, quant) :: PartOk(p)
    ensures FrameAt(Pieces(parts)) == i
    ensures Completed(State(Pieces(parts), Pieces(quant), Pieces(huffman)))
         == Pieces(Filled(parts, i, huffman, quant))
  {
    FilledPieces(parts, i, huffman, quant);
    FramePieces(parts);
    SelectPieces(parts, 0xC4);
    SelectPieces(parts, 0xDB);
    FrameThere(parts, i);
    hide PartOk, Written, FirstFrame, Lacks, FrameAt, OfKind, Select, Completed, Filled, Pieces;
    SplicedTables(State(Pieces(parts), Pieces(quant), Pieces(huffman)));
  }

  // ----- images in a row ------------------------------------------------------------------------------------

  /** What becomes of an image whose segments have all been read. */
  lemma ImageShown(r: Rect, parts: seq<Part>, i: nat, huffman: seq<Part>, quant: seq<Part>, more: seq<Byte>)
    requires Steady(Segments(r)) && ImageOk(parts) && (forall p <- parts :: PartOk(p)) && FirstFrame(parts, i)
    requires (forall p <- huffman :: PartOk(p)) && (forall p <- quant :: PartOk(p))
    ensures forall p <- Filled(parts, i, huffman, quant) :: PartOk(p)
    ensures Run(Segments(r), State(Pieces(parts), Pieces(quant), Pieces(huffman)), more)
         == Progress(Finished, State([], Pieces(if Lacks(parts, 0xDB) then quant else Select(parts, 0xDB)),
                                     Pieces(if Lacks(parts, 0xC4) then huffman else Select(parts, 0xC4))), more,
                     [Picture(r.x, r.y, r.width, r.height, WrittenAll(Filled(parts, i, huffman, quant)))])
  {
    hide PartOk, ImageOk, FirstFrame, Written, Lacks, FrameAt, OfKind, Select, Run, Filled, Completed, Flat, WrittenAll,
      WellFormed, Complete;
    var s := State(Pieces(parts), Pieces(quant), Pieces(huffman));
    assert parts + [] == parts;
    UnderWay(parts, [], Pieces(quant), Pieces(huffman));
    FrameThere(parts, i);
    ImageEnds(r, s, more);
    CompletedPieces(parts, i, huffman, quant);
    FlatPieces(Filled(parts, i, huffman, quant));
    SelectPieces(parts, 0xC4);
    SelectPieces(parts, 0xDB);
  }

  /** An image is handed over as it was written, with tables from earlier images right behind
      its frame header where it has none of its own, and its own tables are remembered. */
  lemma ImageBack(r: Rect, parts: seq<Part>, i: nat, huffman: seq<Part>, quant: seq<Part>, more: seq<Byte>)
    requires ImageOk(parts) && FirstFrame(parts, i)
    requires (forall p <- huffman :: PartOk(p)) && (forall p <- quant :: PartOk(p))
    ensures forall p <- Filled(parts, i, huffman, quant) :: PartOk(p)
    ensures Decoded(r, State([], Pieces(quant), Pieces(huffman)), WrittenAll(parts) + more)
         == Progress(Finished, State([], Pieces(if Lacks(parts, 0xDB) then quant else Select(parts, 0xDB)),
                                     Pieces(if Lacks(parts, 0xC4) then huffman else Select(parts, 0xC4))), more,
                     [Picture(r.x, r.y, r.width, r.height, WrittenAll(Filled(parts, i, huffman, quant)))])
  {
    hide ImageOk, Lacks, Select, Filled, WrittenAll, Run, FirstFrame;
    SegmentsSteady(r);
    assert [] + parts == parts;
    assert Pieces([]) == [];
    PartsBack(r, [], parts, Pieces(quant), Pieces(huffman), more);
    ImageShown(r, parts, i, huffman, quant, more);
  }

  /** An image without a frame header is refused. */
  lemma FramelessRefused(r: Rect, parts: seq<Part>, quant: seq<seq<Byte>>, huffman: seq<seq<Byte>>, more: seq<Byte>)
    requires ImageOk(parts) && forall p <- parts :: !IsFrame(p)
    ensures Decoded(r, State([], quant, huffman), WrittenAll(parts) + more).status == Failed
  {
    hide ImageOk, WrittenAll, Run, Written, PartOk, WellFormed, Complete, FrameAt;
    SegmentsSteady(r);
    assert [] + parts == parts && parts + [] == parts;
    assert Pieces([]) == [];
    PartsBack(r, [], parts, quant, huffman, more);
    UnderWay(parts, [], quant, huffman);
    FramePieces(parts);
    ImageEnds(r, State(Pieces(parts), quant, huffman), more);
  }

  /** The decoder after a list of images, from the one it was created with on. */
  ghost function StateAfter(rects: seq<Rect>, images: seq<seq<Part>>): State
    requires |rects| == |images| && forall image <- images :: ImageOk(image)
  {
    if images == [] then State([], [], [])
    else
      var n := |images| - 1;
      assert ImageOk(images[n]);
      Decoded(rects[n], StateAfter(rects[..n], images[..n]), WrittenAll(images[n])).state
  }

  ghost predicate HasFrame(image: seq<Part>) {
    exists i :: FirstFrame(image, i)
  }

  ghost predicate Framed(images: seq<seq<Part>>) {
    forall image <- images :: ImageOk(image) && HasFrame(image)
  }

  lemma LatestOk(images: seq<seq<Part>>, kind: Byte)
    requires forall image <- images :: ImageOk(image)
    ensures forall p <- Latest(images, kind) :: PartOk(p)
  {
    hide PartOk, Follows, Latest;
  }

  lemma LatestNext(images: seq<seq<Part>>, kind: Byte)
    requires images != []
    ensures var n := |images| - 1;
            Latest(images, kind)
            == if Lacks(images[n], kind) then Latest(images[..n], kind) else Select(images[n], kind)
  {
  }

  lemma StateNext(rects: seq<Rect>, images: seq<seq<Part>>)
    requires |rects| == |images| && images != [] && Framed(images)
    ensures var n := |images| - 1;
            Framed(images[..n]) && (forall p <- images[n] :: PartOk(p))
            && StateAfter(rects, images)
               == Decoded(rects[n], StateAfter(rects[..n], images[..n]), WrittenAll(images[n])).state
    ensures ImageOk(images[|images| - 1]) && HasFrame(images[|images| - 1])
  {
    assert images[|images| - 1] in images;
    hide FirstFrame, Follows, PartOk, Decoded, WrittenAll;
  }

  /** Whatever images came before, exactly the tables of the last one that had any are
      remembered, for each of the two kinds on its own. */
  lemma {:induction false} RemembersLatest(rects: seq<Rect>, images: seq<seq<Part>>)
    requires |rects| == |images| && Framed(images)
    ensures (forall p <- Latest(images, 0xDB) :: PartOk(p)) && (forall p <- Latest(images, 0xC4) :: PartOk(p))
    ensures StateAfter(rects, images) == State([], Pieces(Latest(images, 0xDB)), Pieces(Latest(images, 0xC4)))
    decreases |images|
  {
    LatestOk(images, 0xDB);
    LatestOk(images, 0xC4);
    if images == [] {
    } else {
      hide Framed, ImageOk, FirstFrame, PartOk, Written, Decoded, Select, Lacks, WrittenAll, Filled, Latest, StateAfter;
      var n := |images| - 1;
      StateNext(rects, images);
      RemembersLatest(rects[..n], images[..n]);
      LatestNext(images, 0xDB);
      LatestNext(images, 0xC4);
      var i :| FirstFrame(images[n], i);
      ImageBack(rects[n], images[n], i, Latest(images[..n], 0xC4), Latest(images[..n], 0xDB), []);
      assert WrittenAll(images[n]) + [] == WrittenAll(images[n]);
    }
  }

  /** Images in a row: what is handed over for the next one are its parts up to the frame
      header, then the Huffman and the quantization tables that it lacks, as the last image
      that had such tables sent them, then the rest of its parts. */
  lemma NextImage(rects: seq<Rect>, images: seq<seq<Part>>, r: Rect, parts: seq<Part>, i: nat, more: seq<Byte>)
    requires |rects| == |images| && Framed(images) && ImageOk(parts) && FirstFrame(parts, i)
    ensures var shown := Filled(parts, i, Latest(images, 0xC4), Latest(images, 0xDB));
            var p := Decoded(r, StateAfter(rects, images), WrittenAll(parts) + more);
            && (forall x <- shown :: PartOk(x)) && p.status == Finished && p.rest == more
            && p.calls == [Picture(r.x, r.y, r.width, r.height, WrittenAll(shown))]
  {
    hide ImageOk, FirstFrame, PartOk, Written, Decoded, Select, Lacks, WrittenAll, Filled, Latest, StateAfter, Framed;
    RemembersLatest(rects, images);
    ImageBack(r, parts, i, Latest(images, 0xC4), Latest(images, 0xDB), more);
  }

  /** An image with tables of its own is handed over byte for byte. */
  lemma OwnTables(parts: seq<Part>, i: nat, huffman: seq<Part>, quant: seq<Part>)
    requires i < |parts| && !Lacks(parts, 0xC4) && !Lacks(parts, 0xDB)
    ensures Filled(parts, i, huffman, quant) == parts
  {
  }

  /** An image without tables behind one that has them. */
  lemma TablesFromBefore(first: seq<Part>, parts: seq<Part>, i: nat)
    requires i < |parts| && Lacks(parts, 0xC4) && Lacks(parts, 0xDB) && !Lacks(first, 0xC4) && !Lacks(first, 0xDB)
    ensures Filled(parts, i, Latest([first], 0xC4), Latest([first], 0xDB))
         == parts[..i + 1] + Select(first, 0xC4) + Select(first, 0xDB) + parts[i + 1..]
  {
  }
}
