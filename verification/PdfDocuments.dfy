/**
 The PDF serializer as it works: a table of objects that images and pages add to, and a pass over it
 that lays the objects out, notes their offsets, and writes the cross-reference table and the trailer.
 */
module PdfDocuments {
  import opened PdfText
  import opened PdfFile

  datatype Resource = Resource(name: string, id: nat)

  datatype Image = Image(width: nat, height: nat, data: Bytes)

  const CATALOG: nat := 1
  const PAGES: nat := 2
  const REGULAR: nat := 3
  const BOLD: nat := 4

  // ---------- bodies of objects ----------

  function Reference(id: nat): string {
    Decimal(id) + " 0 R"
  }

  function CatalogBody(): Bytes {
    Binary("<< /Type /Catalog /Pages " + Reference(PAGES) + " >>")
  }

  function FontBody(name: string): Bytes {
    Binary("<< /Type /Font /Subtype /Type1 /BaseFont /" + name + " >>")
  }

  function Joined(ids: seq<nat>): string {
    if ids == [] then ""
    else if |ids| == 1 then Reference(ids[0])
    else Joined(ids[..|ids| - 1]) + " " + Reference(ids[|ids| - 1])
  }

  function PagesBody(ids: seq<nat>): Bytes {
    Binary("<< /Type /Pages /Kids [" + Joined(ids) + "] /Count " + Decimal(|ids|) + " >>")
  }

  function ResourceEntries(resources: seq<Resource>): string {
    if resources == [] then ""
    else
      var last := resources[|resources| - 1];
      var entry := "/" + last.name + " " + Reference(last.id);
      if |resources| == 1 then entry else ResourceEntries(resources[..|resources| - 1]) + " " + entry
  }

  function ImageDictionary(resources: seq<Resource>): string {
    if resources == [] then "" else " /XObject << " + ResourceEntries(resources) + " >>"
  }

  function PageBody(resources: seq<Resource>, content: nat): Bytes {
    Binary("<< /Type /Page /Parent " + Reference(PAGES) + " /MediaBox [0 0 595.28 841.89] /Resources << /Font << /F1 " + Reference(REGULAR)
           + " /F2 " + Reference(BOLD) + " >>" + ImageDictionary(resources) + " >> /Contents " + Reference(content) + " >>")
  }

  const JPEG := "/ColorSpace /DeviceRGB /BitsPerComponent 8 /Filter /DCTDecode"
  const MONOCHROME := "/ColorSpace /DeviceGray /BitsPerComponent 1 /Interpolate false"

  function ImageLead(image: Image, kind: string): string {
    "<< /Type /XObject /Subtype /Image /Width " + Decimal(image.width) + " /Height " + Decimal(image.height) + " " + kind + " /Length "
  }

  /** An image is a stream whose length is that of its data. */
  function ImageObject(image: Image, kind: string): Bytes {
    StreamOf(ImageLead(image, kind), |image.data|, " ", image.data)
  }

  // ---------- the document ----------

  class PdfDocument {
    var objects: map<nat, Bytes>
    var pageIds: seq<nat>
    var imageResources: seq<Resource>
    var nextObjectId: nat
    /** The contents of the pages and the objects of the images added so far. */
    ghost var contents: seq<string>
    ghost var images: seq<Bytes>

    /** Every number given out has its object, except that of the page list, which is written last; the
        fixed objects, the images and the contents are what they should be. */
    ghost predicate Valid()
      reads this
    {
      && nextObjectId > BOLD
      && (forall k: nat :: k != PAGES ==> (k in objects <==> 1 <= k < nextObjectId))
      && objects[CATALOG] == CatalogBody() && objects[REGULAR] == FontBody("Helvetica") && objects[BOLD] == FontBody("Helvetica-Bold")
      && |contents| == |pageIds| && |images| == |imageResources|
      && (forall i :: 0 <= i < |pageIds| ==> PageSound(i))
      && (forall i :: 0 <= i < |imageResources| ==> BOLD < imageResources[i].id < nextObjectId && objects[imageResources[i].id] == images[i])
    }

    /** The content of a page stands just before the page itself. */
    ghost predicate PageSound(i: nat)
      reads this
    {
      && i < |pageIds| && i < |contents|
      && BOLD + 1 < pageIds[i] < nextObjectId
      && pageIds[i] - 1 in objects && objects[pageIds[i] - 1] == ContentObject(contents[i])
    }

    constructor ()
      ensures Valid() && pageIds == [] && imageResources == []
    {
      objects := map[CATALOG := CatalogBody(), REGULAR := FontBody("Helvetica"), BOLD := FontBody("Helvetica-Bold")];
      pageIds, imageResources, contents, images := [], [], [], [];
      nextObjectId := 5;
    }

    method ReserveObject() returns (id: nat)
      modifies this`nextObjectId
      ensures id == old(nextObjectId) && nextObjectId == id + 1
    {
      id := nextObjectId;
      nextObjectId := nextObjectId + 1;
    }

    method AddImage(image: Image, kind: string) returns (name: string)
      requires Valid()
      modifies this
      ensures Valid()
      ensures name == "Im" + Decimal(|old(imageResources)| + 1)
      ensures imageResources == old(imageResources) + [Resource(name, old(nextObjectId))]
      ensures images == old(images) + [ImageObject(image, kind)]
      ensures pageIds == old(pageIds) && contents == old(contents)
    {
      hide ImageObject, ContentObject, CatalogBody, FontBody;
      name := "Im" + Decimal(|imageResources| + 1);
      var id := ReserveObject();
      objects := objects[id := ImageObject(image, kind)];
      imageResources := imageResources + [Resource(name, id)];
      images := images + [ImageObject(image, kind)];
      forall i | 0 <= i < |pageIds| ensures PageSound(i) {
        assert old(PageSound(i));
      }
    }

    method AddPage(content: string)
      requires Valid()
      modifies this
      ensures Valid()
      ensures contents == old(contents) + [content]
      ensures pageIds == old(pageIds) + [old(nextObjectId) + 1]
      ensures old(nextObjectId) + 1 in objects && objects[old(nextObjectId) + 1] == PageBody(imageResources, old(nextObjectId))
      ensures imageResources == old(imageResources) && images == old(images)
    {
      hide ImageObject, ContentObject, CatalogBody, FontBody, PageBody;
      var contentId := ReserveObject();
      var pageId := ReserveObject();
      objects := objects[contentId := ContentObject(content)];
      objects := objects[pageId := PageBody(imageResources, contentId)];
      pageIds := pageIds + [pageId];
      contents := contents + [content];
      forall i | 0 <= i < |pageIds| ensures PageSound(i) {
        if i < |old(pageIds)| { assert old(PageSound(i)); }
      }
    }

    /** Lays out the file. */
    method ToBytes() returns (file: Bytes)
      requires Valid()
      modifies this`objects
      ensures Valid()
      ensures objects == old(objects)[PAGES := PagesBody(pageIds)]
      ensures file == File(objects, nextObjectId, CATALOG)
      ensures SmallOffsets(objects, nextObjectId) ==> TableSound(file, objects, nextObjectId, 1)
    {
      hide ImageObject, ContentObject, CatalogBody, FontBody, PagesBody, Chunk, Binary, XrefLine, XrefHead, Trailer, StartXref, TableSound;
      objects := objects[PAGES := PagesBody(pageIds)];
      forall i | 0 <= i < |pageIds| ensures PageSound(i) {
        assert old(PageSound(i));
      }
      var chunks: Bytes := HEADER;
      var offset := |HEADER|;
      var offsets: map<nat, nat> := map[];
      for id := 1 to nextObjectId
        invariant chunks == Upto(objects, id) && offset == |chunks|
        invariant forall k: nat :: 1 <= k < id ==> k in offsets && offsets[k] == OffsetOf(objects, k)
      {
        var chunk := Chunk(id, objects[id]);
        offsets := offsets[id := offset];
        chunks := chunks + chunk;
        offset := offset + |chunk|;
      }
      var xrefOffset := offset;
      var lines: Bytes := [];
      for id := 1 to nextObjectId
        invariant lines == XrefLines(objects, id)
      {
        lines := lines + Binary(XrefLine(offsets[id]));
      }
      file := chunks + Binary(XrefHead(nextObjectId)) + Binary(FREE_LINE) + lines
              + Binary(Trailer(nextObjectId, CATALOG)) + Binary(StartXref(xrefOffset));
      if SmallOffsets(objects, nextObjectId) {
        TableIsSound(objects, nextObjectId, CATALOG);
      }
    }
  }

  // ---------- images and the page list ----------

  /** The length that an image states is the number of its bytes, which stand between the keywords. */
  lemma ImageLengthIsRight(image: Image, kind: string)
    ensures var head := "<< /Type /XObject /Subtype /Image /Width " + Decimal(image.width) + " /Height " + Decimal(image.height) + " " + kind;
            ImageObject(image, kind)
            == Binary(head + " /Length " + Decimal(|image.data|) + " >> stream\n") + image.data + Binary("\nendstream")
  {
    hide Binary, Decimal;
    var head := "<< /Type /XObject /Subtype /Image /Width " + Decimal(image.width) + " /Height " + Decimal(image.height) + " " + kind;
    assert StreamHead(ImageLead(image, kind), |image.data|, " ") == head + " /Length " + Decimal(|image.data|) + " >> stream\n";
  }

  function CountR(s: string): nat {
    if s == "" then 0 else CountR(s[..|s| - 1]) + if s[|s| - 1] == 'R' then 1 else 0
  }

  ghost predicate Occurs(part: string, s: string) {
    exists front, tail :: s == front + part + tail
  }

  lemma {:induction false} CountConcat(a: string, b: string)
    ensures CountR(a + b) == CountR(a) + CountR(b)
  {
    if b == "" {
      assert a + b == a;
    } else {
      assert (a + b)[..|a + b| - 1] == a + b[..|b| - 1];
      CountConcat(a, b[..|b| - 1]);
    }
  }

  lemma {:induction false} DigitsHaveNoR(n: nat)
    ensures CountR(Decimal(n)) == 0
  {
    if n < 10 {
      DigitBack(n);
      assert Decimal(n)[..0] == "";
    } else {
      DigitsHaveNoR(n / 10);
      DigitBack(n % 10);
      assert Decimal(n)[..|Decimal(n)| - 1] == Decimal(n / 10);
    }
  }

  lemma OneReference(id: nat)
    ensures CountR(Decimal(id) + " 0 R") == 1
  {
    DigitsHaveNoR(id);
    CountConcat(Decimal(id), " 0 R");
    var t := " 0 R";
    assert t[..1][..0] == "" && t[..2][..1] == t[..1] && t[..3][..2] == t[..2];
    assert CountR(t[..1]) == 0;
    assert CountR(t[..2]) == 0;
    assert CountR(t[..3]) == 0;
  }

  lemma OccursInLonger(part: string, a: string, b: string)
    requires Occurs(part, a)
    ensures Occurs(part, a + b)
  {
    var front, tail :| a == front + part + tail;
    assert a + b == front + part + (tail + b);
  }

  lemma JoinedMore(ids: seq<nat>)
    requires |ids| > 1
    ensures Joined(ids) == Joined(ids[..|ids| - 1]) + (" " + Reference(ids[|ids| - 1]))
    ensures Joined(ids) == Joined(ids[..|ids| - 1]) + " " + Reference(ids[|ids| - 1])
  {
    hide Reference;
  }

  lemma {:induction false} ReferencesCounted(ids: seq<nat>)
    ensures CountR(Joined(ids)) == |ids|
  {
    if |ids| <= 1 {
      if ids != [] { OneReference(ids[0]); }
    } else {
      var front, last := ids[..|ids| - 1], Reference(ids[|ids| - 1]);
      ReferencesCounted(front);
      OneReference(ids[|ids| - 1]);
      SpaceHasNoR();
      JoinedMore(ids);
      hide Joined, CountR, Decimal;
      CountConcat(Joined(front), " " + last);
      CountConcat(" ", last);
    }
  }

  lemma {:induction false} EveryPageListed(ids: seq<nat>, i: nat)
    requires i < |ids|
    ensures Occurs(Reference(ids[i]), Joined(ids))
  {
    hide Occurs, Reference;
    var last := Reference(ids[|ids| - 1]);
    if |ids| == 1 {
      OccursAtEnd(last, "");
    } else {
      JoinedMore(ids);
      hide Joined;
      if i == |ids| - 1 {
        OccursAtEnd(last, Joined(ids[..|ids| - 1]) + " ");
      } else {
        EveryPageListed(ids[..|ids| - 1], i);
        OccursInLonger(Reference(ids[i]), Joined(ids[..|ids| - 1]), " " + last);
      }
    }
  }

  lemma SpaceHasNoR()
    ensures CountR(" ") == 0
  {
    var s := " ";
    assert s[..0] == "";
  }

  lemma OccursAtEnd(part: string, front: string)
    ensures Occurs(part, front + part)
    ensures front == "" ==> front + part == part
  {
    assert front + part == front + part + "";
    assert front == "" ==> front + part == part;
  }

  /** The page list says how many pages there are, refers to every one, and holds no further reference. */
  lemma PagesAreListed(ids: seq<nat>)
    ensures exists kids ::
              && PagesBody(ids) == Binary("<< /Type /Pages /Kids [" + kids + "] /Count " + Decimal(|ids|) + " >>")
              && CountR(kids) == |ids| && forall i :: 0 <= i < |ids| ==> Occurs(Decimal(ids[i]) + " 0 R", kids)
  {
    hide Binary, Joined, Decimal, CountR, Occurs;
    ReferencesCounted(ids);
    forall i | 0 <= i < |ids| ensures Occurs(Decimal(ids[i]) + " 0 R", Joined(ids)) { EveryPageListed(ids, i); }
    assert PagesBody(ids) == Binary("<< /Type /Pages /Kids [" + Joined(ids) + "] /Count " + Decimal(|ids|) + " >>");
  }

  lemma EntriesMore(resources: seq<Resource>)
    requires |resources| > 1
    ensures var last := resources[|resources| - 1];
            && ResourceEntries(resources) == ResourceEntries(resources[..|resources| - 1]) + (" " + ("/" + last.name + " " + Reference(last.id)))
            && ResourceEntries(resources) == ResourceEntries(resources[..|resources| - 1]) + " " + ("/" + last.name + " " + Reference(last.id))
  {
    hide Reference;
  }

  lemma {:induction false} EveryImageListed(resources: seq<Resource>, i: nat)
    requires i < |resources|
    ensures Occurs("/" + resources[i].name + " " + Reference(resources[i].id), ResourceEntries(resources))
  {
    hide Occurs, Reference;
    var last := resources[|resources| - 1];
    var entry := "/" + last.name + " " + Reference(last.id);
    if |resources| == 1 {
      OccursAtEnd(entry, "");
    } else {
      EntriesMore(resources);
      hide ResourceEntries;
      if i == |resources| - 1 {
        OccursAtEnd(entry, ResourceEntries(resources[..|resources| - 1]) + " ");
      } else {
        EveryImageListed(resources[..|resources| - 1], i);
        OccursInLonger("/" + resources[i].name + " " + Reference(resources[i].id), ResourceEntries(resources[..|resources| - 1]), " " + entry);
      }
    }
  }

  lemma ImagesOccur(resources: seq<Resource>, i: nat)
    requires i < |resources|
    ensures Occurs("/" + resources[i].name + " " + Decimal(resources[i].id) + " 0 R", ImageDictionary(resources))
  {
    var part := "/" + resources[i].name + " " + Reference(resources[i].id);
    EveryImageListed(resources, i);
    hide Decimal, ResourceEntries, Reference;
    var front, tail :| ResourceEntries(resources) == front + part + tail;
    assert ImageDictionary(resources) == (" /XObject << " + front) + part + (tail + " >>");
    assert Occurs(part, ImageDictionary(resources));
    SameReference(resources[i]);
  }

  lemma SameReference(r: Resource)
    ensures "/" + r.name + " " + Reference(r.id) == "/" + r.name + " " + Decimal(r.id) + " 0 R"
  {
    hide Decimal;
  }

  /** A page belongs to object 2, has the fonts in objects 3 and 4, names every image, and ends with its content. */
  lemma PageRefers(resources: seq<Resource>, content: nat)
    ensures exists images ::
              && PageBody(resources, content)
                 == Binary("<< /Type /Page /Parent " + "2 0 R" + " /MediaBox [0 0 595.28 841.89] /Resources << /Font << /F1 " + "3 0 R"
                           + " /F2 " + "4 0 R" + " >>" + images + " >> /Contents " + (Decimal(content) + " 0 R") + " >>")
              && forall i :: 0 <= i < |resources| ==> Occurs("/" + resources[i].name + " " + Decimal(resources[i].id) + " 0 R", images)
  {
    hide Binary, ImageDictionary, Occurs, Decimal;
    var images := ImageDictionary(resources);
    forall i | 0 <= i < |resources| ensures Occurs("/" + resources[i].name + " " + Decimal(resources[i].id) + " 0 R", images) {
      ImagesOccur(resources, i);
    }
    FixedReferences();
    assert PageBody(resources, content)
           == Binary("<< /Type /Page /Parent " + "2 0 R" + " /MediaBox [0 0 595.28 841.89] /Resources << /Font << /F1 " + "3 0 R"
                     + " /F2 " + "4 0 R" + " >>" + images + " >> /Contents " + (Decimal(content) + " 0 R") + " >>");
  }

  lemma FixedReferences()
    ensures Reference(PAGES) == "2 0 R" && Reference(REGULAR) == "3 0 R" && Reference(BOLD) == "4 0 R"
  {
  }

  // ---------- page contents are ASCII ----------

  /** What the page writer emits: operators made of numbers and names, or a text with its font and place. */
  datatype Operator = Graphic(code: string) | Text(lead: string, decomposed: string)

  function Emit(o: Operator): string {
    match o
    case Graphic(code) => code
    case Text(lead, decomposed) => lead + PdfLiteral(decomposed) + " Tj ET"
  }

  predicate PlainCode(o: Operator) {
    IsAscii(if o.Graphic? then o.code else o.lead)
  }

  function JoinLines(operations: seq<string>): string {
    if operations == [] then ""
    else if |operations| == 1 then operations[0]
    else operations[0] + "\n" + JoinLines(operations[1..])
  }

  /** Content put together from ASCII operators is ASCII, so the length of its stream is right. */
  lemma {:induction false} ContentIsAscii(operations: seq<string>)
    requires forall i :: 0 <= i < |operations| ==> IsAscii(operations[i])
    ensures IsAscii(JoinLines(operations))
  {
    if |operations| > 1 {
      ContentIsAscii(operations[1..]);
      assert IsAscii(operations[0]);
    }
  }

  lemma OperatorIsAscii(o: Operator)
    requires PlainCode(o)
    ensures IsAscii(Emit(o))
  {
    hide PdfLiteral;
    if o.Text? { LiteralIsAscii(o.decomposed); }
  }

  function PageContent(operators: seq<Operator>): string {
    JoinLines(seq(|operators|, i requires 0 <= i < |operators| => Emit(operators[i])))
  }

  /** Whatever the texts of a page, its stream states the number of bytes that stand between its keywords. */
  lemma PageLengthIsRight(operators: seq<Operator>)
    requires forall i :: 0 <= i < |operators| ==> PlainCode(operators[i])
    ensures var content := PageContent(operators);
            ContentObject(content) == Binary("<< /Length " + Decimal(|Binary(content)|) + " >>\nstream\n") + Binary(content) + Binary("\nendstream")
  {
    var emitted := seq(|operators|, i requires 0 <= i < |operators| => Emit(operators[i]));
    forall i | 0 <= i < |emitted| ensures IsAscii(emitted[i]) {
      OperatorIsAscii(operators[i]);
    }
    ContentIsAscii(emitted);
    ContentLengthIsRight(JoinLines(emitted));
  }
}
