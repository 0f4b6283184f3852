/**
 * Body selection (`get_text`): the first text part met in a depth-first,
 * pre-order walk of the message, where a `multipart/alternative` group is
 * searched from its last (most faithful, section 5.1.4 of RFC 2046) child to
 * its first.
 *
 * `Select` is the three-case recursive reading; `WalkSelect` is the loop
 * over `walk()` as the script writes it; `GetText` is that loop as a method.
 * `SelectIsWalkSelect` proves the two readings agree on every well-formed
 * tree (`Mime.WellFormed`).
 */
module Selector {
  import opened Wrappers
  import opened Mime

  /** The pair `(part.get_content_type(), part.get_payload(decode=True))`. */
  datatype Selected = Selected(contentType: string, text: string)

  predicate IsText(p: Part) {
    p.ctype.maintype == "text"
  }

  /** What a text leaf contributes. */
  function Content(p: Part): Selected
    requires p.Leaf?
  {
    Selected(p.ctype.Full(), p.payload)
  }

  /** Text node: itself; alternative group: children last to first; otherwise children in order. */
  function Select(p: Part): Option<Selected> {
    match p
    case Leaf(ct, data) => if IsText(p) then Some(Content(p)) else None
    case Container(ct, parts) => if ct.Full() == AlternativeType then LastSelect(parts) else FirstSelect(parts)
  }

  /** The first non-`None` result among the children, in order. */
  function FirstSelect(ps: seq<Part>): Option<Selected> {
    if ps == [] then None
    else
      var r := Select(ps[0]);
      if r.Some? then r else FirstSelect(ps[1..])
  }

  /** The first non-`None` result among the children, last one first. */
  function LastSelect(ps: seq<Part>): Option<Selected> {
    if ps == [] then None
    else
      var r := Select(ps[|ps| - 1]);
      if r.Some? then r else LastSelect(ps[..|ps| - 1])
  }

  /**
   * The `for part in message.walk()` loop: a text part returns at once; an
   * alternative group returns the first result of its reversed children if
   * there is one; anything else moves on to the next node of the walk.
   */
  function WalkSelect(ws: seq<Part>): Option<Selected>
    requires AllWellFormed(ws)
  {
    if ws == [] then None
    else if IsText(ws[0]) then Some(Content(ws[0]))
    else if ws[0].ctype.Full() == AlternativeType then
      AlternativeIsContainer(ws[0]);
      var r := LastSelect(ws[0].parts);
      if r.Some? then r else WalkSelect(ws[1..])
    else WalkSelect(ws[1..])
  }

  function Reverse<T>(s: seq<T>): (r: seq<T>)
    ensures |r| == |s|
    ensures forall k :: 0 <= k < |s| ==> r[k] == s[|s| - 1 - k]
  {
    if s == [] then [] else [s[|s| - 1]] + Reverse(s[..|s| - 1])
  }

  /** `reversed(part.get_payload())` scanned forwards is the backward scan. */
  lemma {:induction false} LastSelectIsReversed(ps: seq<Part>)
    ensures LastSelect(ps) == FirstSelect(Reverse(ps))
  {
    if ps != [] {
      var rv := Reverse(ps);
      assert rv[1..] == Reverse(ps[..|ps| - 1]);
      LastSelectIsReversed(ps[..|ps| - 1]);
    }
  }

  lemma {:induction false} FirstSelectNone(ps: seq<Part>)
    ensures FirstSelect(ps).None? <==> forall k :: 0 <= k < |ps| ==> Select(ps[k]).None?
  {
    if ps != [] {
      FirstSelectNone(ps[1..]);
      assert forall k :: 1 <= k < |ps| ==> ps[k] == ps[1..][k - 1];
    }
  }

  lemma {:induction false} LastSelectNone(ps: seq<Part>)
    ensures LastSelect(ps).None? <==> forall k :: 0 <= k < |ps| ==> Select(ps[k]).None?
  {
    if ps != [] {
      LastSelectNone(ps[..|ps| - 1]);
    }
  }

  /** The walk loop over `a + b` finishes in `a` if it can, and otherwise continues with `b`. */
  lemma {:induction false} WalkSelectAppend(a: seq<Part>, b: seq<Part>)
    requires AllWellFormed(a) && AllWellFormed(b)
    ensures AllWellFormed(a + b)
    ensures WalkSelect(a + b) == if WalkSelect(a).Some? then WalkSelect(a) else WalkSelect(b)
  {
    assert forall k :: 0 <= k < |a + b| ==> (a + b)[k] == if k < |a| then a[k] else b[k - |a|];
    if a != [] {
      assert (a + b)[1..] == a[1..] + b;
      WalkSelectAppend(a[1..], b);
    } else {
      assert a + b == b;
    }
  }

  /**
   * The walk loop and the three-case recursion agree. For an alternative
   * group whose reversed scan finds nothing, the walk goes on into that
   * group's own nodes; it finds nothing there either, because every child
   * already yielded `None`.
   */
  lemma {:induction false} SelectIsWalkSelect(p: Part)
    requires WellFormed(p)
    ensures AllWellFormed(Walk(p))
    ensures WalkSelect(Walk(p)) == Select(p)
  {
    WalkNodes(p);
    match p
    case Leaf(ct, data) =>
      if ct.Full() == AlternativeType {
        AlternativeIsContainer(p);
      }
      assert Walk(p)[1..] == [];
    case Container(ct, parts) =>
      WalkAllNodes(parts);
      WalkAllSelect(parts);
      assert Walk(p)[1..] == WalkAll(parts);
      if ct.Full() == AlternativeType && LastSelect(parts).None? {
        LastSelectNone(parts);
        FirstSelectNone(parts);
      }
  }

  lemma {:induction false} WalkAllSelect(ps: seq<Part>)
    requires AllWellFormed(ps)
    ensures AllWellFormed(WalkAll(ps))
    ensures WalkSelect(WalkAll(ps)) == FirstSelect(ps)
  {
    WalkAllNodes(ps);
    if ps != [] {
      SelectIsWalkSelect(ps[0]);
      assert AllWellFormed(ps[1..]);
      WalkAllSelect(ps[1..]);
      WalkSelectAppend(Walk(ps[0]), WalkAll(ps[1..]));
    }
  }

  predicate NoText(ws: seq<Part>) {
    forall q :: q in ws ==> !IsText(q)
  }

  /** `get_text` returns `None` exactly when no node of the tree is a text part. */
  lemma {:induction false} SelectNoneIffNoText(p: Part)
    requires WellFormed(p)
    ensures Select(p).None? <==> NoText(Walk(p))
  {
    if p.Container? {
      SelectNoneIffNoTextAll(p.parts);
      FirstSelectNone(p.parts);
      LastSelectNone(p.parts);
    }
  }

  lemma {:induction false} SelectNoneIffNoTextAll(ps: seq<Part>)
    requires AllWellFormed(ps)
    ensures (forall k :: 0 <= k < |ps| ==> Select(ps[k]).None?) <==> NoText(WalkAll(ps))
  {
    if ps != [] {
      SelectNoneIffNoText(ps[0]);
      SelectNoneIffNoTextAll(ps[1..]);
      assert forall k :: 1 <= k < |ps| ==> ps[k] == ps[1..][k - 1];
    }
  }

  /** A selected pair is the content type and payload of a text leaf of the tree. */
  lemma {:induction false} SelectFromTextLeaf(p: Part)
    requires Select(p).Some?
    ensures exists q :: q in Walk(p) && q.Leaf? && IsText(q) && Select(p).value == Content(q)
  {
    match p
    case Leaf(_, _) =>
      assert p in Walk(p);
    case Container(ct, parts) =>
      var k :| 0 <= k < |parts| && Select(parts[k]) == Select(p) by {
        if ct.Full() == AlternativeType {
          LastSelectHit(parts);
        } else {
          FirstSelectHit(parts);
        }
      }
      SelectFromTextLeaf(parts[k]);
      WalkAllHasWalk(parts, k);
  }

  lemma {:induction false} FirstSelectHit(ps: seq<Part>)
    requires FirstSelect(ps).Some?
    ensures exists k :: 0 <= k < |ps| && Select(ps[k]) == FirstSelect(ps)
  {
    if Select(ps[0]).None? {
      FirstSelectHit(ps[1..]);
      var k :| 0 <= k < |ps[1..]| && Select(ps[1..][k]) == FirstSelect(ps[1..]);
      assert ps[1..][k] == ps[k + 1];
    }
  }

  lemma {:induction false} LastSelectHit(ps: seq<Part>)
    requires LastSelect(ps).Some?
    ensures exists k :: 0 <= k < |ps| && Select(ps[k]) == LastSelect(ps)
  {
    if Select(ps[|ps| - 1]).None? {
      LastSelectHit(ps[..|ps| - 1]);
    }
  }

  lemma {:induction false} WalkAllHasWalk(ps: seq<Part>, k: nat)
    requires k < |ps|
    ensures forall q :: q in Walk(ps[k]) ==> q in WalkAll(ps)
  {
    if k > 0 {
      WalkAllHasWalk(ps[1..], k - 1);
    }
  }

  /** The first text leaf of a list of nodes, ignoring alternative groups. */
  function FirstText(ws: seq<Part>): Option<Selected> {
    if ws == [] then None
    else if IsText(ws[0]) && ws[0].Leaf? then Some(Content(ws[0]))
    else FirstText(ws[1..])
  }

  /**
   * Without alternative groups, `get_text` returns the first text node of the
   * pre-order walk.
   */
  lemma NoAlternativeFirstText(p: Part)
    requires WellFormed(p)
    requires forall q :: q in Walk(p) ==> q.ctype.Full() != AlternativeType
    ensures Select(p) == FirstText(Walk(p))
  {
    SelectIsWalkSelect(p);
    WalkSelectIsFirstText(Walk(p));
  }

  lemma {:induction false} WalkSelectIsFirstText(ws: seq<Part>)
    requires AllWellFormed(ws)
    requires forall q :: q in ws ==> q.ctype.Full() != AlternativeType
    ensures WalkSelect(ws) == FirstText(ws)
  {
    if ws != [] {
      assert ws[0] in ws;
      assert forall q :: q in ws[1..] ==> q in ws;
      WalkSelectIsFirstText(ws[1..]);
    }
  }

  /**
   * In a container other than an alternative group, a text leaf wins when
   * every child before it yields nothing: an attachment followed by the text
   * gives the text.
   */
  lemma {:induction false} FirstSelectSkips(pre: seq<Part>, t: Part, post: seq<Part>)
    requires forall k :: 0 <= k < |pre| ==> Select(pre[k]).None?
    requires Select(t).Some?
    ensures FirstSelect(pre + [t] + post) == Select(t)
  {
    if pre == [] {
      assert (pre + [t] + post)[0] == t;
    } else {
      assert (pre + [t] + post)[1..] == pre[1..] + [t] + post;
      assert (pre + [t] + post)[0] == pre[0];
      FirstSelectSkips(pre[1..], t, post);
    }
  }

  /** In an alternative group the last child that yields anything wins. */
  lemma {:induction false} LastSelectSkips(pre: seq<Part>, t: Part, post: seq<Part>)
    requires Select(t).Some?
    requires forall k :: 0 <= k < |post| ==> Select(post[k]).None?
    ensures LastSelect(pre + [t] + post) == Select(t)
  {
    var s := pre + [t] + post;
    if post == [] {
      assert s[|s| - 1] == t;
    } else {
      assert s[..|s| - 1] == pre + [t] + post[..|post| - 1];
      assert s[|s| - 1] == post[|post| - 1];
      LastSelectSkips(pre, t, post[..|post| - 1]);
    }
  }

  /** A text part at the root is the answer, whatever else the message holds. */
  lemma RootText(p: Part)
    requires WellFormed(p) && IsText(p)
    ensures p.Leaf? && Select(p) == Some(Content(p))
  {
  }

  const PlainType := ContentType("text", "plain")
  const HtmlType := ContentType("text", "html")

  /** `multipart/alternative` of [text/plain, text/html] yields the text/html part. */
  lemma AlternativePlainHtml(plain: string, html: string)
    ensures Select(Container(ContentType("multipart", "alternative"),
                             [Leaf(PlainType, plain), Leaf(HtmlType, html)]))
         == Some(Selected("text/html", html))
  {
    assert ContentType("multipart", "alternative").Full() == AlternativeType;
    assert HtmlType.Full() == "text/html";
    var ps := [Leaf(PlainType, plain), Leaf(HtmlType, html)];
    assert Select(ps[|ps| - 1]) == Some(Selected("text/html", html));
  }

  /** `multipart/mixed` of [non-text attachment, text/plain] yields the text part. */
  lemma MixedAttachmentThenText(attachment: ContentType, data: string, text: string)
    requires attachment.maintype != "text"
    ensures Select(Container(ContentType("multipart", "mixed"),
                             [Leaf(attachment, data), Leaf(PlainType, text)]))
         == Some(Selected("text/plain", text))
  {
    assert ContentType("multipart", "mixed").Full()[10] != AlternativeType[10];
    assert PlainType.Full() == "text/plain";
    var ps := [Leaf(attachment, data), Leaf(PlainType, text)];
    assert Select(ps[0]).None?;
    assert ps[1..] == [Leaf(PlainType, text)];
    assert Select(ps[1]) == Some(Selected("text/plain", text));
    assert FirstSelect(ps[1..]) == Some(Selected("text/plain", text));
    assert FirstSelect(ps) == Some(Selected("text/plain", text));
  }

  /**
   * The script's loop, literally: walk the tree in pre-order, return the
   * first text part, and scan an alternative group's children in reverse,
   * recursively, before moving on.
   */
  method GetText(m: Part) returns (r: Option<Selected>)
    requires WellFormed(m)
    ensures r == Select(m)
    decreases Size(m)
  {
    var walk := Walk(m);
    SelectIsWalkSelect(m);
    WalkNodes(m);
    var i := 0;
    while i < |walk|
      invariant 0 <= i <= |walk|
      invariant AllWellFormed(walk[i..])
      invariant WalkSelect(walk[i..]) == Select(m)
    {
      var part := walk[i];
      assert walk[i..][0] == part && walk[i..][1..] == walk[i + 1..];
      if part.ctype.maintype == "text" {
        return Some(Selected(part.ctype.Full(), part.payload));
      }
      if part.ctype.Full() == AlternativeType {
        AlternativeIsContainer(part);
        var alts := part.parts;
        var j := |alts|;
        assert alts[..j] == alts;
        assert part in walk;
        while j > 0
          invariant 0 <= j <= |alts|
          invariant LastSelect(alts[..j]) == LastSelect(alts)
        {
          j := j - 1;
          assert alts[..j + 1][..j] == alts[..j];
          assert alts[..j + 1][j] == alts[j];
          ChildSmaller(alts, j);
          var text := GetText(alts[j]);
          if text.Some? {
            return text;
          }
        }
      }
      i := i + 1;
    }
    return None;
  }
}
