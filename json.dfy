/**
  The document tree a DynamicObject carries in its `data` field, and JSON
  Pointers over it. Evaluation follows section 4 of RFC 6901: an object is
  stepped into by key, an array by a canonical decimal index that is in
  range, and nothing else can be stepped into ("-" never resolves).
  Numbers are integers only.
*/
module Json {
  import opened Optional
  import Decimal

  datatype Json =
    | Null
    | Bool(b: bool)
    | Int(i: int)
    | Str(s: string)
    | Arr(items: seq<Json>)
    | Obj(fields: map<string, Json>)

  /** A pointer as its sequence of unescaped reference tokens; [] is the whole document. */
  type Pointer = seq<string>

  /** One evaluation step: the node that `token` refers to inside `node`, if any. */
  function Step(node: Json, token: string): Option<Json> {
    match node
    case Obj(m) => if token in m then Some(m[token]) else None
    case Arr(a) =>
      (match Decimal.Parse(token)
       case Some(i) => if i < |a| then Some(a[i]) else None
       case None => None)
    case _ => None
  }

  /** The node `ptr` refers to in `doc`, or None when some step fails. */
  function Resolve(doc: Json, ptr: Pointer): Option<Json>
    decreases |ptr|
  {
    if ptr == [] then Some(doc)
    else match Step(doc, ptr[0]) {
      case None => None
      case Some(child) => Resolve(child, ptr[1..])
    }
  }

  /**
    `doc` with `v` placed where `ptr` refers, or None when the pointer cannot
    host it. A missing object member is created as an empty object and the walk
    goes on inside it; an array is entered only through an in-range index; a
    scalar (Null included) met before the last token makes the assignment fail.
  */
  function Assign(doc: Json, ptr: Pointer, v: Json): Option<Json>
    decreases |ptr|
  {
    if ptr == [] then Some(v)
    else match doc {
      case Obj(m) =>
        var child := if ptr[0] in m then m[ptr[0]] else Obj(map[]);
        (match Assign(child, ptr[1..], v)
         case Some(c) => Some(Obj(m[ptr[0] := c]))
         case None => None)
      case Arr(a) =>
        (match Decimal.Parse(ptr[0])
         case Some(i) =>
           if i < |a| then
             (match Assign(a[i], ptr[1..], v)
              case Some(c) => Some(Arr(a[i := c]))
              case None => None)
           else None
         case None => None)
      case _ => None
    }
  }

  /** Neither pointer is a prefix of the other: they part at some token. */
  predicate Diverge(p: Pointer, q: Pointer)
    decreases |p|
  {
    |p| > 0 && |q| > 0 && (p[0] != q[0] || Diverge(p[1..], q[1..]))
  }

  /** Resolving a concatenation resolves the first part, then the second from there. */
  lemma {:induction false} ResolveConcat(doc: Json, p: Pointer, q: Pointer)
    ensures Resolve(doc, p + q) == match Resolve(doc, p) { case None => None case Some(n) => Resolve(n, q) }
    decreases |p|
  {
    if p != [] {
      assert (p + q)[0] == p[0] && (p + q)[1..] == p[1..] + q;
      match Step(doc, p[0]) {
        case None =>
        case Some(child) => ResolveConcat(child, p[1..], q);
      }
    } else {
      assert p + q == q;
    }
  }

  /** A missing member at any depth makes every pointer through it unresolvable. */
  lemma MissingKeyBlocks(doc: Json, p: Pointer, key: string, q: Pointer)
    requires Resolve(doc, p).Some? && Resolve(doc, p).value.Obj?
    requires key !in Resolve(doc, p).value.fields
    ensures Resolve(doc, p + [key] + q) == None
  {
    ResolveConcat(doc, p, [key] + q);
    assert p + [key] + q == p + ([key] + q);
  }

  /** Nothing below a scalar resolves. */
  lemma ScalarBlocks(doc: Json, p: Pointer, q: Pointer)
    requires Resolve(doc, p).Some? && !Resolve(doc, p).value.Obj? && !Resolve(doc, p).value.Arr?
    requires q != []
    ensures Resolve(doc, p + q) == None
  {
    ResolveConcat(doc, p, q);
  }

  /** After a successful assignment the pointer resolves to exactly the value assigned. */
  lemma {:induction false} ResolveAssign(doc: Json, ptr: Pointer, v: Json)
    requires Assign(doc, ptr, v).Some?
    ensures Resolve(Assign(doc, ptr, v).value, ptr) == Some(v)
    decreases |ptr|
  {
    if ptr != [] {
      match doc {
        case Obj(m) =>
          var child := if ptr[0] in m then m[ptr[0]] else Obj(map[]);
          ResolveAssign(child, ptr[1..], v);
        case Arr(a) =>
          var i := Decimal.Parse(ptr[0]).value;
          ResolveAssign(a[i], ptr[1..], v);
      }
    }
  }

  /** A location that already resolves can always be assigned. */
  lemma {:induction false} AssignResolvable(doc: Json, ptr: Pointer, v: Json)
    requires Resolve(doc, ptr).Some?
    ensures Assign(doc, ptr, v).Some?
    decreases |ptr|
  {
    if ptr != [] {
      AssignResolvable(Step(doc, ptr[0]).value, ptr[1..], v);
    }
  }

  /** A pointer that extends a resolving one can be assigned when its remainder can be assigned from there. */
  lemma {:induction false} AssignBelow(doc: Json, p: Pointer, q: Pointer, v: Json)
    requires Resolve(doc, p).Some? && Assign(Resolve(doc, p).value, q, v).Some?
    ensures Assign(doc, p + q, v).Some?
    decreases |p|
  {
    if p == [] {
      assert p + q == q;
    } else {
      assert (p + q)[0] == p[0] && (p + q)[1..] == p[1..] + q;
      AssignBelow(Step(doc, p[0]).value, p[1..], q, v);
    }
  }

  /** Assigning at p leaves every location that parts from p exactly as it was. */
  lemma {:induction false} AssignPreservesDiverging(doc: Json, p: Pointer, q: Pointer, v: Json)
    requires Assign(doc, p, v).Some?
    requires Diverge(p, q)
    ensures Resolve(Assign(doc, p, v).value, q) == Resolve(doc, q)
    decreases |p|
  {
    var d := Assign(doc, p, v).value;
    match doc {
      case Obj(m) =>
        var child := if p[0] in m then m[p[0]] else Obj(map[]);
        var c := Assign(child, p[1..], v).value;
        assert d == Obj(m[p[0] := c]);
        if p[0] == q[0] {
          AssignPreservesDiverging(child, p[1..], q[1..], v);
          if p[0] !in m {
            assert Resolve(child, q[1..]) == None;
          }
        }
      case Arr(a) =>
        var i := Decimal.Parse(p[0]).value;
        var c := Assign(a[i], p[1..], v).value;
        assert d == Arr(a[i := c]);
        if p[0] == q[0] {
          AssignPreservesDiverging(a[i], p[1..], q[1..], v);
        }
    }
  }

  /**
    The walk is blocked at the k-th token: the first k tokens reach an existing
    node that is not an object and cannot be stepped into with the next token.
  */
  ghost predicate BlockedAt(doc: Json, p: Pointer, k: nat)
    requires k < |p|
  {
    Resolve(doc, p[..k]).Some? && !Resolve(doc, p[..k]).value.Obj?
    && Step(Resolve(doc, p[..k]).value, p[k]).None?
  }

  /** An assignment fails exactly when the walk is blocked at some token (AssignErr). */
  lemma {:induction false} AssignFailsIffBlocked(doc: Json, p: Pointer, v: Json)
    ensures Assign(doc, p, v).None? <==> exists k: nat :: k < |p| && BlockedAt(doc, p, k)
    decreases |p|
  {
    if p != [] {
      assert p[..0] == [];
      match doc {
        case Obj(m) =>
          var child := if p[0] in m then m[p[0]] else Obj(map[]);
          AssignFailsIffBlocked(child, p[1..], v);
          if p[0] in m {
            ShiftBlocked(doc, child, p);
          } else {
            EmptyNeverBlocked(p[1..], v);
            forall k: nat | k < |p| ensures !BlockedAt(doc, p, k) {
              if k > 0 {
                ResolveConcat(doc, [p[0]], p[1..][..k - 1]);
                assert p[..k] == [p[0]] + p[1..][..k - 1];
              }
            }
          }
        case Arr(a) =>
          if Step(doc, p[0]).Some? {
            var child := Step(doc, p[0]).value;
            AssignFailsIffBlocked(child, p[1..], v);
            ShiftBlocked(doc, child, p);
          } else {
            assert BlockedAt(doc, p, 0);
          }
        case _ =>
          assert BlockedAt(doc, p, 0);
      }
    }
  }

  /** Blocking below the first step is blocking one token later from the root. */
  lemma ShiftBlocked(doc: Json, child: Json, p: Pointer)
    requires p != [] && Step(doc, p[0]) == Some(child)
    ensures (exists k: nat :: k < |p| && BlockedAt(doc, p, k))
        <==> (exists k: nat :: k < |p[1..]| && BlockedAt(child, p[1..], k))
  {
    assert p[..0] == [];
    forall k: nat | 0 < k < |p|
      ensures BlockedAt(doc, p, k) <==> BlockedAt(child, p[1..], k - 1)
    {
      assert p[..k] == [p[0]] + p[1..][..k - 1];
      ResolveConcat(doc, [p[0]], p[1..][..k - 1]);
      assert p[k] == p[1..][k - 1];
    }
    if exists k: nat :: k < |p| && BlockedAt(doc, p, k) {
      var k: nat :| k < |p| && BlockedAt(doc, p, k);
      assert k > 0;
      assert BlockedAt(child, p[1..], k - 1);
    }
    if exists k: nat :: k < |p[1..]| && BlockedAt(child, p[1..], k) {
      var k: nat :| k < |p[1..]| && BlockedAt(child, p[1..], k);
      assert BlockedAt(doc, p, k + 1);
    }
  }

  /** Assignment into a fresh empty object never fails, whatever the pointer. */
  lemma {:induction false} EmptyNeverBlocked(p: Pointer, v: Json)
    ensures Assign(Obj(map[]), p, v).Some?
    decreases |p|
  {
    if p != [] {
      EmptyNeverBlocked(p[1..], v);
    }
  }
}
