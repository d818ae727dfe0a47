/**
 * A header (or footer) region of an RTF document: which header control word
 * it is written with, as decided by the owning document's layout flags at
 * render time, and the sequence of stream writes its rendering performs.
 */
module Headers {
  import opened Wrappers
  import Decimal
  import Stream

  /** The four header type names a caller may pass. */
  const TypeAll: string := "all"
  const TypeLeft: string := "left"
  const TypeRight: string := "right"
  const TypeFirst: string := "first"

  /** The RTF destination name of a header; a footer would use its own. */
  const HeaderRtfType: string := "header"

  /** The header's kind; `Other` keeps any type name that is none of the four. */
  datatype Kind = All | Left | Right | First | Other(name: string)

  /** The type name a kind was created from. */
  function TypeName(k: Kind): string {
    match k
    case All => TypeAll
    case Left => TypeLeft
    case Right => TypeRight
    case First => TypeFirst
    case Other(name) => name
  }

  predicate IsKnownType(typeName: string) {
    typeName == TypeAll || typeName == TypeLeft || typeName == TypeRight || typeName == TypeFirst
  }

  /** The kind a type name selects; the name can always be read back from it. */
  function KindOf(typeName: string): (k: HeaderKind)
    ensures TypeName(k) == typeName
    ensures k.Other? <==> !IsKnownType(typeName)
  {
    if typeName == TypeAll then All
    else if typeName == TypeLeft then Left
    else if typeName == TypeRight then Right
    else if typeName == TypeFirst then First
    else Other(typeName)
  }

  /** The owning document's two layout flags, as read at the moment of the call. */
  datatype Doc = Doc(oddEvenDifferent: bool, specialLayoutForFirstPage: bool)

  /** A kind a header can actually hold: `Other` never carries one of the four names. */
  type HeaderKind = k: Kind | !(k.Other? && IsKnownType(k.name)) witness All

  /** A header: its kind, its vertical offset in twips when one is set, its RTF destination name. */
  datatype Header = Header(kind: HeaderKind, offsetTwips: Option<int>, rtfType: string)

  /** Which layout rule a header kind breaks. */
  datatype Rule = UsingOddEvenDifferent | NotUsingOddEvenDifferent | NoSpecialFirstPage

  datatype Note = Footnote | Endnote

  /** The exceptions a header throws. */
  datatype Error =
    | TypeNotAllowed(kind: Kind, rule: Rule)
    | TypeNotDefined(typeName: string)
    | NoteNotSupported(note: Note)

  /**
   * Creating a header with a type name. A `first` header switches the
   * document's special first-page layout on; nothing else about the
   * document changes. The source's default type name is `all`.
   */
  function New(doc: Doc, typeName: string): (r: (Header, Doc))
    ensures r.0.kind == KindOf(typeName)
    ensures r.0.offsetTwips.None? && r.0.rtfType == HeaderRtfType
    ensures r.1.oddEvenDifferent == doc.oddEvenDifferent
    ensures r.1.specialLayoutForFirstPage <==> doc.specialLayoutForFirstPage || typeName == TypeFirst
  {
    var h := Header(KindOf(typeName), None, HeaderRtfType);
    if typeName == TypeFirst then (h, doc.(specialLayoutForFirstPage := true)) else (h, doc)
  }

  /** Setting (or, with `None`, clearing) the vertical position; nothing else changes. */
  function SetPosition(h: Header, twips: Option<int>): (r: Header)
    ensures r.offsetTwips == twips
    ensures r.kind == h.kind && r.rtfType == h.rtfType
  {
    h.(offsetTwips := twips)
  }

  /** Reads the kind back from a type code written for destination `rtfType`. */
  function DecodeTypeCode(rtfType: string, code: string): Option<Kind> {
    if code == rtfType then Some(All)
    else if |code| == |rtfType| + 1 && code[..|rtfType|] == rtfType then
      match code[|rtfType|]
      case 'l' => Some(Left)
      case 'r' => Some(Right)
      case 'f' => Some(First)
      case _ => None
    else None
  }

  /**
   * The control word naming the header's destination, checked against the
   * document's current flags: `all` only without odd/even-different pages,
   * `left` and `right` only with them, `first` only with a special first
   * page, and no other type name at all.
   */
  function TypeAsRtfCode(h: Header, doc: Doc): (r: Result<string, Error>)
    ensures r.Success? ==> DecodeTypeCode(h.rtfType, r.value) == Some(h.kind)
    ensures r.Failure? ==> (r.error.TypeNotAllowed? && r.error.kind == h.kind) || r.error == TypeNotDefined(TypeName(h.kind))
    ensures h.kind.Other? ==> r.Failure?
  {
    var rtfType := h.rtfType;
    match h.kind
    case All =>
      if !doc.oddEvenDifferent then Success(rtfType) else Failure(TypeNotAllowed(All, UsingOddEvenDifferent))
    case Left =>
      if doc.oddEvenDifferent then Success(rtfType + "l") else Failure(TypeNotAllowed(Left, NotUsingOddEvenDifferent))
    case Right =>
      if doc.oddEvenDifferent then Success(rtfType + "r") else Failure(TypeNotAllowed(Right, NotUsingOddEvenDifferent))
    case First =>
      if doc.specialLayoutForFirstPage then Success(rtfType + "f") else Failure(TypeNotAllowed(First, NoSpecialFirstPage))
    case Other(name) =>
      Failure(TypeNotDefined(name))
  }

  /** An `all` header is written as the bare destination, and only without odd/even-different pages. */
  lemma TypeCodeOfAll(h: Header, doc: Doc)
    requires h.kind == All
    ensures TypeAsRtfCode(h, doc).Success? <==> !doc.oddEvenDifferent
    ensures TypeAsRtfCode(h, doc).Success? ==> TypeAsRtfCode(h, doc).value == h.rtfType
    ensures TypeAsRtfCode(h, doc).Failure? ==> TypeAsRtfCode(h, doc).error == TypeNotAllowed(All, UsingOddEvenDifferent)
  {
  }

  /** `left` and `right` headers need odd/even-different pages and add `l` or `r`. */
  lemma TypeCodeOfSides(h: Header, doc: Doc)
    requires h.kind == Left || h.kind == Right
    ensures TypeAsRtfCode(h, doc).Success? <==> doc.oddEvenDifferent
    ensures TypeAsRtfCode(h, doc).Success? ==>
      TypeAsRtfCode(h, doc).value == h.rtfType + (if h.kind == Left then "l" else "r")
    ensures TypeAsRtfCode(h, doc).Failure? ==>
      TypeAsRtfCode(h, doc).error == TypeNotAllowed(h.kind, NotUsingOddEvenDifferent)
  {
  }

  /** A `first` header needs the special first-page layout, adds `f`, and ignores the odd/even flag. */
  lemma TypeCodeOfFirst(h: Header, doc: Doc)
    requires h.kind == First
    ensures TypeAsRtfCode(h, doc).Success? <==> doc.specialLayoutForFirstPage
    ensures TypeAsRtfCode(h, doc).Success? ==> TypeAsRtfCode(h, doc).value == h.rtfType + "f"
    ensures TypeAsRtfCode(h, doc).Failure? ==>
      TypeAsRtfCode(h, doc).error == TypeNotAllowed(First, NoSpecialFirstPage)
    ensures TypeAsRtfCode(h, doc) == TypeAsRtfCode(h, doc.(oddEvenDifferent := !doc.oddEvenDifferent))
  {
  }

  /** A type name outside the four constants is rejected whatever the flags. */
  lemma TypeCodeOfUndefined(h: Header, doc: Doc)
    requires h.kind.Other?
    ensures !IsKnownType(h.kind.name)
    ensures TypeAsRtfCode(h, doc) == Failure(TypeNotDefined(h.kind.name))
  {
  }

  /** Two accepted headers of one destination share a type code only if they share a kind. */
  lemma TypeCodesDistinguishKinds(h1: Header, h2: Header, doc1: Doc, doc2: Doc)
    requires h1.rtfType == h2.rtfType
    requires TypeAsRtfCode(h1, doc1).Success? && TypeAsRtfCode(h2, doc2).Success?
    ensures TypeAsRtfCode(h1, doc1).value == TypeAsRtfCode(h2, doc2).value ==> h1.kind == h2.kind
  {
  }

  /** Creating a `first` header leaves the first-page flag on and the odd/even flag as it was. */
  lemma NewFirstEnablesFirstPage(doc: Doc)
    ensures New(doc, TypeFirst).1 == Doc(doc.oddEvenDifferent, true)
  {
  }

  /** Creating any other header leaves the document alone. */
  lemma NewOtherLeavesDocument(doc: Doc, typeName: string)
    requires typeName != TypeFirst
    ensures New(doc, typeName).1 == doc
  {
  }

  /** A freshly created `first` header passes the type check while the flags stay as creation left them. */
  lemma NewFirstTypeCodeSucceeds(doc: Doc)
    ensures TypeAsRtfCode(New(doc, TypeFirst).0, New(doc, TypeFirst).1) == Success(HeaderRtfType + "f")
  {
  }

  /**
   * The check is made against the flags at render time: switching the
   * first-page layout off after creating a `first` header makes it fail.
   */
  lemma FirstTypeCheckedAgainstLatestFlags(doc: Doc)
    ensures TypeAsRtfCode(New(doc, TypeFirst).0, New(doc, TypeFirst).1.(specialLayoutForFirstPage := false))
         == Failure(TypeNotAllowed(First, NoSpecialFirstPage))
  {
  }

  /** Adding a footnote to a header always throws. */
  function AddFootnote<F, P>(h: Header, noteText: string, font: Option<F>, parFormat: Option<P>): (r: Outcome<Error>)
    ensures r == Fail(NoteNotSupported(Footnote))
  {
    Fail(NoteNotSupported(Footnote))
  }

  /** Adding an endnote to a header always throws. */
  function AddEndnote<F, P>(h: Header, noteText: string, font: Option<F>, parFormat: Option<P>): (r: Outcome<Error>)
    ensures r == Fail(NoteNotSupported(Endnote))
  {
    Fail(NoteNotSupported(Endnote))
  }

  /** The token placing a header `twips` from the page edge: backslash, destination, `y`, the number. */
  function PositionToken(rtfType: string, twips: int): (t: string)
    ensures |t| > |rtfType| + 2 && t[0] == '\\'
  {
    "\\" + rtfType + "y" + Decimal.IntToString(twips)
  }

  /** Reads the offset back from a position token for destination `rtfType`. */
  function ParsePositionToken(rtfType: string, token: string): Option<int> {
    var n := |rtfType| + 2;
    if |token| > n && token[..n] == "\\" + rtfType + "y" then Decimal.ParseInt(token[n..]) else None
  }

  lemma PositionTokenRoundTrip(rtfType: string, twips: int)
    ensures ParsePositionToken(rtfType, PositionToken(rtfType, twips)) == Some(twips)
  {
    var t := PositionToken(rtfType, twips);
    var n := |rtfType| + 2;
    assert t[..n] == "\\" + rtfType + "y";
    assert t[n..] == Decimal.IntToString(twips);
    Decimal.IntToStringRoundTrip(twips);
  }

  /** The writes made before the type check: the position token, if a position is set. */
  function PositionWrites(h: Header): (w: seq<string>)
    ensures |w| <= 1
    ensures |w| == 1 <==> h.offsetTwips.Some?
    ensures |w| == 1 ==> ParsePositionToken(h.rtfType, w[0]) == h.offsetTwips
  {
    match h.offsetTwips
    case Some(twips) =>
      PositionTokenRoundTrip(h.rtfType, twips);
      [PositionToken(h.rtfType, twips)]
    case None => []
  }

  /** The write opening the header group. */
  function GroupOpen(code: string): (t: string)
    ensures |t| == |code| + 3 && t[0] == '{' && t[1] == '\\' && t[|t| - 1] == ' '
  {
    "{\\" + code + " "
  }

  /** The write closing the header group: end of paragraph, closing brace, CRLF. */
  const GroupClose: string := "\\par}\r\n"

  /** What a render call did: the writes it made, and whether it threw. */
  datatype Rendered = Rendered(writes: seq<string>, outcome: Outcome<Error>)

  /**
   * Rendering a header whose children would write `children[0]`, then
   * `children[1]`, and so on. The position token is written before the type
   * check, so a failing render may already have written it.
   */
  function Render(h: Header, doc: Doc, children: seq<seq<string>>): (r: Rendered)
    ensures r.outcome.Pass? <==> TypeAsRtfCode(h, doc).Success?
    ensures r.outcome.Fail? ==> r.outcome.error == TypeAsRtfCode(h, doc).error
    ensures |r.writes| >= |PositionWrites(h)| && r.writes[..|PositionWrites(h)|] == PositionWrites(h)
  {
    var pos := PositionWrites(h);
    match TypeAsRtfCode(h, doc)
    case Failure(e) => Rendered(pos, Fail(e))
    case Success(code) => Rendered(pos + [GroupOpen(code)] + Stream.RenderChildren(children) + [GroupClose], Pass)
  }

  /**
   * A successful render writes the optional position token, the group
   * opener with the type code, every child's writes in order, and the
   * group closer, and nothing else.
   */
  lemma RenderSuccessWrites(h: Header, doc: Doc, children: seq<seq<string>>)
    requires TypeAsRtfCode(h, doc).Success?
    ensures var r := Render(h, doc, children);
      var code := TypeAsRtfCode(h, doc).value;
      var n := |PositionWrites(h)|;
      && |r.writes| == n + 2 + |Stream.RenderChildren(children)|
      && r.writes[n] == "{\\" + code + " "
      && r.writes[n + 1..|r.writes| - 1] == Stream.RenderChildren(children)
      && r.writes[|r.writes| - 1] == "\\par}\r\n"
  {
    var pos := PositionWrites(h);
    var code := TypeAsRtfCode(h, doc).value;
    var kids := Stream.RenderChildren(children);
    var w := Render(h, doc, children).writes;
    assert w == pos + [GroupOpen(code)] + kids + [GroupClose];
    assert w[|pos| + 1..|w| - 1] == kids;
  }

  /**
   * The text a successful render leaves in the stream: position token,
   * group opener, the children's texts in order, group closer.
   */
  lemma {:induction false} RenderSuccessText(h: Header, doc: Doc, children: seq<seq<string>>)
    requires TypeAsRtfCode(h, doc).Success?
    ensures Stream.Text(Render(h, doc, children).writes)
         == Stream.Text(PositionWrites(h)) + GroupOpen(TypeAsRtfCode(h, doc).value)
            + Stream.Text(Stream.ChildTexts(children)) + GroupClose
  {
    var pos := PositionWrites(h);
    var code := TypeAsRtfCode(h, doc).value;
    var open := GroupOpen(code);
    var kids := Stream.RenderChildren(children);
    var w := Render(h, doc, children).writes;
    assert w == pos + [open] + kids + [GroupClose];
    Stream.TextOfGroup(pos, open, kids, GroupClose);
    Stream.RenderChildrenText(children);
  }

  /**
   * A render whose type check fails has written at most the position token:
   * no group opener, no child output, no group closer.
   */
  lemma RenderFailureWrites(h: Header, doc: Doc, children: seq<seq<string>>)
    requires TypeAsRtfCode(h, doc).Failure?
    ensures var r := Render(h, doc, children);
      && r.writes == PositionWrites(h)
      && |r.writes| <= 1
      && GroupClose !in r.writes
      && forall i :: 0 <= i < |r.writes| ==> r.writes[i][0] == '\\'
  {
    var r := Render(h, doc, children);
    if h.offsetTwips.Some? {
      assert r.writes[0] == PositionToken(h.rtfType, h.offsetTwips.value);
    }
  }

  /** An `all` header 567 twips from the top renders starting with `\headery567`. */
  lemma RenderPositionedAllHeader(doc: Doc, children: seq<seq<string>>)
    requires !doc.oddEvenDifferent
    ensures var h := SetPosition(New(doc, TypeAll).0, Some(567));
      Render(h, New(doc, TypeAll).1, children).writes[..2] == [@"\headery567", @"{\header "]
  {
    var (h0, d) := New(doc, TypeAll);
    var h := SetPosition(h0, Some(567));
    assert Decimal.DigitChar(5) == '5' && Decimal.DigitChar(6) == '6' && Decimal.DigitChar(7) == '7';
    assert Decimal.NatToString(5) == "5";
    assert Decimal.NatToString(56) == "56";
    assert Decimal.NatToString(567) == "567";
    assert PositionToken(HeaderRtfType, 567) == @"\headery567";
    assert TypeAsRtfCode(h, d) == Success(HeaderRtfType);
    var w := Render(h, d, children).writes;
    assert w == [PositionToken(HeaderRtfType, 567)] + [GroupOpen(HeaderRtfType)] + Stream.RenderChildren(children) + [GroupClose];
    assert GroupOpen(HeaderRtfType) == @"{\header ";
    assert w[0] == @"\headery567";
    assert w[1] == @"{\header ";
    assert w[..2] == [w[0], w[1]];
  }
}
