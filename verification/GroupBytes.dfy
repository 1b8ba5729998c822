// Canonical signing bytes of group control messages: member lists are sorted first, so the bytes stand
// for the lists up to order.
module GroupBytes {
  import opened Words
  import opened Codec
  import opened Signing

  // ----- the order of byte strings -----

  /** Rust's `Ord` on slices. */
  predicate Leq(a: bytes, b: bytes) {
    a == [] || (b != [] && (a[0] < b[0] || (a[0] == b[0] && Leq(a[1..], b[1..]))))
  }

  lemma {:induction false} LeqTotal(a: bytes, b: bytes)
    ensures Leq(a, b) || Leq(b, a)
  {
    if a != [] && b != [] {
      LeqTotal(a[1..], b[1..]);
    }
  }

  lemma {:induction false} LeqAntisymmetric(a: bytes, b: bytes)
    requires Leq(a, b) && Leq(b, a)
    ensures a == b
  {
    if a != [] && b != [] {
      LeqAntisymmetric(a[1..], b[1..]);
      assert a == [a[0]] + a[1..] && b == [b[0]] + b[1..];
    }
  }

  lemma {:induction false} LeqTransitive(a: bytes, b: bytes, c: bytes)
    requires Leq(a, b) && Leq(b, c)
    ensures Leq(a, c)
  {
    if a != [] && b != [] && c != [] && a[0] == b[0] == c[0] {
      LeqTransitive(a[1..], b[1..], c[1..]);
    }
  }

  /** Big-endian: numbers are ordered as their bytes are. */
  lemma BigEndianOrders(x: u32, y: u32)
    ensures Leq(Be32(x), Be32(y)) <==> x <= y
  {
    var a, b := Be32(x), Be32(y);
    LeqOfFour(a, b);
    Be32RoundTrip(x);
    Be32RoundTrip(y);
  }

  lemma LeqOfFour(a: bytes, b: bytes)
    requires |a| == |b| == 4
    ensures Leq(a, b) <==> FromBe32(a) <= FromBe32(b)
  {
    assert a[1..][0] == a[1] && a[1..][1..][0] == a[2] && a[1..][1..][1..][0] == a[3] && a[1..][1..][1..][1..] == [];
    assert b[1..][0] == b[1] && b[1..][1..][0] == b[2] && b[1..][1..][1..][0] == b[3] && b[1..][1..][1..][1..] == [];
    assert Leq(a[1..][1..][1..], b[1..][1..][1..]) <==> a[3] <= b[3];
    assert Leq(a[1..][1..], b[1..][1..]) <==> a[2] < b[2] || (a[2] == b[2] && a[3] <= b[3]);
  }

  // ----- sorting -----

  function Insert(x: bytes, s: seq<bytes>): seq<bytes> {
    if s == [] || Leq(x, s[0]) then [x] + s else [s[0]] + Insert(x, s[1..])
  }

  /** What `sort` leaves of a list. */
  function Sorted(s: seq<bytes>): seq<bytes> {
    if s == [] then [] else Insert(s[0], Sorted(s[1..]))
  }

  ghost predicate Ordered(s: seq<bytes>) {
    forall i, j | 0 <= i < j < |s| :: Leq(s[i], s[j])
  }

  lemma {:induction false} InsertKeeps(x: bytes, s: seq<bytes>)
    ensures multiset(Insert(x, s)) == multiset(s) + multiset{x} && |Insert(x, s)| == |s| + 1
  {
    if s != [] && !Leq(x, s[0]) {
      InsertKeeps(x, s[1..]);
      assert s == [s[0]] + s[1..];
    }
  }

  lemma {:induction false} InsertOrders(x: bytes, s: seq<bytes>)
    requires Ordered(s)
    ensures Ordered(Insert(x, s))
  {
    if s != [] {
      LeqTotal(x, s[0]);
      if Leq(x, s[0]) {
        forall j | 0 <= j < |s| ensures Leq(x, s[j]) {
          if j > 0 {
            LeqTransitive(x, s[0], s[j]);
          }
        }
      } else {
        var rest := Insert(x, s[1..]);
        InsertOrders(x, s[1..]);
        InsertKeeps(x, s[1..]);
        forall y | y in rest ensures Leq(s[0], y) {
          assert y in multiset(rest);
          assert y == x || y in s[1..];
        }
      }
    }
  }

  lemma {:induction false} SortedSorts(s: seq<bytes>)
    ensures Ordered(Sorted(s)) && multiset(Sorted(s)) == multiset(s) && |Sorted(s)| == |s|
  {
    if s != [] {
      SortedSorts(s[1..]);
      InsertKeeps(s[0], Sorted(s[1..]));
      InsertOrders(s[0], Sorted(s[1..]));
      assert s == [s[0]] + s[1..];
    }
  }

  lemma FirstIsLeast(s: seq<bytes>, x: bytes)
    requires Ordered(s) && x in multiset(s)
    ensures s != [] && Leq(s[0], x)
  {
    var i :| 0 <= i < |s| && s[i] == x;
    LeqTotal(x, x);
  }

  lemma HeadOff(s: seq<bytes>)
    requires s != []
    ensures multiset(s[1..]) == multiset(s) - multiset{s[0]} && s[0] in multiset(s)
  {
    assert s == [s[0]] + s[1..];
  }

  /** Two ordered lists with the same elements are the same list. */
  lemma {:induction false} OrderedUnique(s: seq<bytes>, t: seq<bytes>)
    requires Ordered(s) && Ordered(t) && multiset(s) == multiset(t)
    ensures s == t
  {
    assert |multiset(s)| == |s| && |multiset(t)| == |t|;
    if s != [] {
      HeadOff(s);
      HeadOff(t);
      FirstIsLeast(s, t[0]);
      FirstIsLeast(t, s[0]);
      LeqAntisymmetric(s[0], t[0]);
      OrderedUnique(s[1..], t[1..]);
      assert s == [s[0]] + s[1..] && t == [t[0]] + t[1..];
    }
  }

  lemma SortedEqual(s: seq<bytes>, t: seq<bytes>)
    ensures Sorted(s) == Sorted(t) <==> multiset(s) == multiset(t)
  {
    SortedSorts(s);
    SortedSorts(t);
    if multiset(s) == multiset(t) {
      OrderedUnique(Sorted(s), Sorted(t));
    }
  }

  // ----- the three control messages -----

  type GroupId = g: bytes | |g| == 32 witness seq(32, i => 0)

  datatype Control =
    | Create(groupId: GroupId, name: bytes, founder: bytes, members: seq<bytes>, epoch: u64)
    | Update(groupId: GroupId, added: seq<bytes>, removed: seq<bytes>, epoch: u64)
    | Leave(groupId: GroupId, leaver: bytes, epoch: u64)

  predicate ShortParts(c: Control) {
    match c
    case Create(_, name, founder, members, _) => Short(name) && Short(founder) && AllShort(members)
    case Update(_, added, removed, _) => AllShort(added) && AllShort(removed)
    case Leave(_, leaver, _) => Short(leaver)
  }

  function Body(c: Control): bytes {
    match c
    case Create(g, name, founder, members, epoch) =>
      Ascii("create") + (g + (Lp(name) + (Lp(founder) + (Be64(epoch) + Counted(Sorted(members))))))
    case Update(g, added, removed, epoch) =>
      Ascii("update") + (g + (Be64(epoch) + (Counted(Sorted(added)) + Counted(Sorted(removed)))))
    case Leave(g, leaver, epoch) =>
      Ascii("leave") + (g + (Lp(leaver) + Be64(epoch)))
  }

  method CanonicalCreateBytes(g: GroupId, name: bytes, founder: bytes, members: seq<bytes>,
                        epoch: u64) returns (out: bytes)
    ensures out == ToSign(GroupControl, Body(Create(g, name, founder, members, epoch)))
  {
    ghost var list := Counted(Sorted(members));
    out := Ascii(Domain(GroupControl)) + Ascii("create");
    out := out + g;
    out := out + Lp(name);
    out := out + Lp(founder);
    out := out + Be64(epoch);
    out := AppendCounted(out, Sorted(members));
    Regroup6(Ascii(Domain(GroupControl)), Ascii("create"), g, Lp(name), Lp(founder), Be64(epoch), list);
  }

  method CanonicalUpdateBytes(g: GroupId, added: seq<bytes>, removed: seq<bytes>, epoch: u64) returns (out: bytes)
    ensures out == ToSign(GroupControl, Body(Update(g, added, removed, epoch)))
  {
    ghost var a, r := Counted(Sorted(added)), Counted(Sorted(removed));
    out := Ascii(Domain(GroupControl)) + Ascii("update");
    out := out + g;
    out := out + Be64(epoch);
    out := AppendCounted(out, Sorted(added));
    out := AppendCounted(out, Sorted(removed));
    Regroup5(Ascii(Domain(GroupControl)), Ascii("update"), g, Be64(epoch), a, r);
  }

  method CanonicalLeaveBytes(g: GroupId, leaver: bytes, epoch: u64) returns (out: bytes)
    ensures out == ToSign(GroupControl, Body(Leave(g, leaver, epoch)))
  {
    out := Ascii(Domain(GroupControl)) + Ascii("leave");
    out := out + g;
    out := out + Lp(leaver);
    out := out + Be64(epoch);
    Regroup4(Ascii(Domain(GroupControl)), Ascii("leave"), g, Lp(leaver), Be64(epoch));
  }

  lemma Regroup4(a: bytes, b: bytes, c: bytes, d: bytes, e: bytes)
    ensures a + b + c + d + e == a + (b + (c + (d + e)))
  {
  }

  lemma Regroup5(a: bytes, b: bytes, c: bytes, d: bytes, e: bytes, f: bytes)
    ensures a + b + c + d + e + f == a + (b + (c + (d + (e + f))))
  {
    Regroup4(a, b, c, d, e + f);
    assert a + b + c + d + e + f == a + b + c + d + (e + f);
  }

  lemma Regroup6(a: bytes, b: bytes, c: bytes, d: bytes, e: bytes, f: bytes, g: bytes)
    ensures a + b + c + d + e + f + g == a + (b + (c + (d + (e + (f + g)))))
  {
    Regroup5(a, b, c, d, e, f + g);
    assert a + b + c + d + e + f + g == a + b + c + d + e + (f + g);
  }

  method AppendCounted(prefix: bytes, parts: seq<bytes>) returns (out: bytes)
    ensures out == prefix + Counted(parts)
  {
    out := prefix + Be32(|parts|);
    for i := 0 to |parts|
      invariant out + LpAll(parts[i..]) == prefix + Counted(parts)
    {
      assert parts[i..][1..] == parts[i + 1..];
      assert out + LpAll(parts[i..]) == (out + Lp(parts[i])) + LpAll(parts[i + 1..]);
      out := out + Lp(parts[i]);
    }
  }

  /** Equal up to the order of member lists. */
  ghost predicate SameControl(c: Control, d: Control) {
    match (c, d)
    case (Create(g, name, founder, members, epoch), Create(g', name', founder', members', epoch')) =>
      g == g' && name == name' && founder == founder' && epoch == epoch' && multiset(members) == multiset(members')
    case (Update(g, added, removed, epoch), Update(g', added', removed', epoch')) =>
      g == g' && epoch == epoch' && multiset(added) == multiset(added') && multiset(removed) == multiset(removed')
    case (Leave(g, leaver, epoch), Leave(g', leaver', epoch')) =>
      g == g' && leaver == leaver' && epoch == epoch'
    case _ => false
  }

  lemma SortedShort(parts: seq<bytes>)
    requires AllShort(parts)
    ensures AllShort(Sorted(parts))
  {
    SortedSorts(parts);
    forall p | p in Sorted(parts) ensures Short(p) {
      assert p in multiset(Sorted(parts));
    }
  }

  lemma CreateDetermined(c: Control, d: Control)
    requires c.Create? && d.Create? && ShortParts(c) && ShortParts(d) && Body(c) == Body(d)
    ensures SameControl(c, d)
  {
    var m, m' := Counted(Sorted(c.members)), Counted(Sorted(d.members));
    var e, e' := Be64(c.epoch) + m, Be64(d.epoch) + m';
    var f, f' := Lp(c.founder) + e, Lp(d.founder) + e';
    var n, n' := Lp(c.name) + f, Lp(d.name) + f';
    Peel(Ascii("create"), c.groupId + n, Ascii("create"), d.groupId + n');
    Peel(c.groupId, n, d.groupId, n');
    PeelLp(c.name, f, d.name, f');
    PeelLp(c.founder, e, d.founder, e');
    Peel(Be64(c.epoch), m, Be64(d.epoch), m');
    Be64Injective(c.epoch, d.epoch);
    SortedShort(c.members);
    SortedShort(d.members);
    var none: bytes := [];
    assert m + none == m && m' + none == m';
    PeelCounted(Sorted(c.members), none, Sorted(d.members), none);
    SortedEqual(c.members, d.members);
  }

  lemma UpdateDetermined(c: Control, d: Control)
    requires c.Update? && d.Update? && ShortParts(c) && ShortParts(d) && Body(c) == Body(d)
    ensures SameControl(c, d)
  {
    var a, a' := Counted(Sorted(c.added)), Counted(Sorted(d.added));
    var r, r' := Counted(Sorted(c.removed)), Counted(Sorted(d.removed));
    Peel(Ascii("update"), c.groupId + (Be64(c.epoch) + (a + r)), Ascii("update"), d.groupId + (Be64(d.epoch) + (a' + r')));
    Peel(c.groupId, Be64(c.epoch) + (a + r), d.groupId, Be64(d.epoch) + (a' + r'));
    Peel(Be64(c.epoch), a + r, Be64(d.epoch), a' + r');
    Be64Injective(c.epoch, d.epoch);
    SortedShort(c.added);
    SortedShort(d.added);
    SortedShort(c.removed);
    SortedShort(d.removed);
    PeelCounted(Sorted(c.added), r, Sorted(d.added), r');
    var none: bytes := [];
    assert r + none == r && r' + none == r';
    PeelCounted(Sorted(c.removed), none, Sorted(d.removed), none);
    SortedEqual(c.added, d.added);
    SortedEqual(c.removed, d.removed);
  }

  lemma LeaveDetermined(c: Control, d: Control)
    requires c.Leave? && d.Leave? && ShortParts(c) && ShortParts(d) && Body(c) == Body(d)
    ensures SameControl(c, d)
  {
    Peel(Ascii("leave"), c.groupId + (Lp(c.leaver) + Be64(c.epoch)), Ascii("leave"), d.groupId + (Lp(d.leaver) + Be64(d.epoch)));
    Peel(c.groupId, Lp(c.leaver) + Be64(c.epoch), d.groupId, Lp(d.leaver) + Be64(d.epoch));
    PeelLp(c.leaver, Be64(c.epoch), d.leaver, Be64(d.epoch));
    Be64Injective(c.epoch, d.epoch);
  }

  /** The bytes of different operations start with different letters. */
  lemma OperationShows(c: Control)
    ensures Body(c) != [] && Body(c)[0] == (match c case Create(_, _, _, _, _) => 99 case Update(_, _, _, _) => 117 case Leave(_, _, _) => 108)
  {
    var word := match c case Create(_, _, _, _, _) => "create" case Update(_, _, _, _) => "update" case Leave(_, _, _) => "leave";
    assert Body(c)[0] == Ascii(word)[0];
  }

  /** Canonical: what is signed is the same for two control messages if and only if they are the same
      operation with the same fields and the same members, in whatever order. */
  lemma CanonicalUpToOrder(c: Control, d: Control)
    requires ShortParts(c) && ShortParts(d)
    ensures ToSign(GroupControl, Body(c)) == ToSign(GroupControl, Body(d)) <==> SameControl(c, d)
  {
    PurposesNeverMeet(GroupControl, Body(c), GroupControl, Body(d));
    OperationShows(c);
    OperationShows(d);
    if Body(c) == Body(d) {
      match c
      case Create(_, _, _, _, _) => CreateDetermined(c, d);
      case Update(_, _, _, _) => UpdateDetermined(c, d);
      case Leave(_, _, _) => LeaveDetermined(c, d);
    }
    if SameControl(c, d) {
      match c
      case Create(_, _, _, members, _) => SortedEqual(members, d.members);
      case Update(_, added, removed, _) =>
        SortedEqual(added, d.added);
        SortedEqual(removed, d.removed);
      case Leave(_, _, _) =>
    }
  }

  /** A signature made over one control message verifies for another, under a given signer, exactly when the
      signer is the same and the messages are the same up to member order. */
  lemma SignatureBindsControl(signer: bytes, c: Control, expected: bytes, d: Control)
    requires ShortParts(c) && ShortParts(d)
    ensures Verifies(expected, ToSign(GroupControl, Body(d)), Signature(signer, ToSign(GroupControl, Body(c)))) <==>
              signer == expected && SameControl(c, d)
  {
    CanonicalUpToOrder(c, d);
  }
}
