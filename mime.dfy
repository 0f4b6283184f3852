/**
 * A parsed mail message as an immutable MIME tree (RFC 2046 multipart
 * structure), and the email package's `walk()` as a pre-order listing.
 * Transfer decoding happens in the parser: a leaf's payload is already the
 * decoded text the script would get from `get_payload(decode=True)`.
 */
module Mime {
  import opened Wrappers

  /** A content type `maintype/subtype`, lower-cased by the parser. */
  datatype ContentType = ContentType(maintype: string, subtype: string) {
    /** `get_content_type()` */
    function Full(): string {
      maintype + "/" + subtype
    }

    /** The parser only reports types with exactly one '/'. */
    predicate Valid() {
      '/' !in maintype && '/' !in subtype
    }
  }

  const AlternativeType: string := "multipart/alternative"

  datatype Part =
    | Leaf(ctype: ContentType, payload: string)
    | Container(ctype: ContentType, parts: seq<Part>)

  /** The fetched message: the root part together with the headers the script reads. */
  datatype Message = Message(fromHeader: Option<string>, subjectHeader: Option<string>, root: Part)

  /**
   * The trees within the scope of the model. A node has children exactly when its major
   * type is `multipart` or `message`, and every content type has exactly one
   * '/'. The email parser builds such a tree for every message whose
   * multipart parts are intact; a multipart part with no boundary parameter,
   * or whose boundary never occurs, is kept with a string body and falls
   * outside.
   */
  predicate WellFormed(p: Part) {
    && p.ctype.Valid()
    && (p.Container? <==> (p.ctype.maintype == "multipart" || p.ctype.maintype == "message"))
    && (p.Container? ==> forall k :: 0 <= k < |p.parts| ==> WellFormed(p.parts[k]))
  }

  predicate AllWellFormed(ps: seq<Part>) {
    forall k :: 0 <= k < |ps| ==> WellFormed(ps[k])
  }

  /** `message.walk()`: the node, then the walks of its children in order. */
  function Walk(p: Part): (r: seq<Part>)
    ensures |r| > 0 && r[0] == p
  {
    match p
    case Leaf(_, _) => [p]
    case Container(_, parts) => [p] + WalkAll(parts)
  }

  function WalkAll(ps: seq<Part>): seq<Part> {
    if ps == [] then [] else Walk(ps[0]) + WalkAll(ps[1..])
  }

  /** Number of nodes in the tree. */
  function Size(p: Part): nat {
    match p
    case Leaf(_, _) => 1
    case Container(_, parts) => 1 + SizeAll(parts)
  }

  function SizeAll(ps: seq<Part>): nat {
    if ps == [] then 0 else Size(ps[0]) + SizeAll(ps[1..])
  }

  /** The one content type that is compared as a whole in `get_text`. */
  lemma {:induction false} AlternativeIsMultipart(ct: ContentType)
    requires ct.Valid() && ct.Full() == AlternativeType
    ensures ct.maintype == "multipart" && ct.subtype == "alternative"
  {
    var m := ct.maintype;
    var full := ct.Full();
    assert full[|m|] == '/';
    // the only '/' of "multipart/alternative" is at index 9
    assert forall k :: 0 <= k < |AlternativeType| && k != 9 ==> AlternativeType[k] != '/';
    assert |m| == 9;
    assert m == full[..9];
    assert ct.subtype == full[10..];
  }

  lemma AlternativeIsContainer(p: Part)
    requires WellFormed(p) && p.ctype.Full() == AlternativeType
    ensures p.Container? && p.ctype.maintype == "multipart"
  {
    AlternativeIsMultipart(p.ctype);
  }

  /** Every node of a walk lies in the tree: it is well-formed and no larger. */
  lemma {:induction false} WalkNodes(p: Part)
    ensures forall q :: q in Walk(p) ==> Size(q) <= Size(p)
    ensures WellFormed(p) ==> forall q :: q in Walk(p) ==> WellFormed(q)
  {
    if p.Container? {
      WalkAllNodes(p.parts);
    }
  }

  lemma {:induction false} WalkAllNodes(ps: seq<Part>)
    ensures forall q :: q in WalkAll(ps) ==> Size(q) <= SizeAll(ps)
    ensures AllWellFormed(ps) ==> forall q :: q in WalkAll(ps) ==> WellFormed(q)
  {
    if ps != [] {
      WalkNodes(ps[0]);
      WalkAllNodes(ps[1..]);
    }
  }

  /** A child is strictly smaller than its parent. */
  lemma {:induction false} ChildSmaller(ps: seq<Part>, k: nat)
    requires k < |ps|
    ensures Size(ps[k]) <= SizeAll(ps)
  {
    if k > 0 {
      ChildSmaller(ps[1..], k - 1);
    }
  }
}
