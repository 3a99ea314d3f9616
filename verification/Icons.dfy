/** What becomes of custom icons, in terms of the three lists alone. */
module Icons {
  import opened Wrappers
  import opened IdOrder
  import opened TextOrder
  import opened Model
  import opened FieldMerge
  import opened EntryMerge
  import opened MetaMerge

  /** The icon a list holds for an identifier. */
  function IconOf(list: seq<CustomIcon>, id: Uuid): Option<CustomIcon> {
    if list == [] then None
    else if list[|list| - 1].id == id then Some(list[|list| - 1])
    else IconOf(list[..|list| - 1], id)
  }

  /** What an icon shows: its image and its name. */
  function Shows(icon: Option<CustomIcon>): Option<(seq<Byte>, Option<Text>)> {
    if icon.Some? then Some((icon.value.data, icon.value.name)) else None
  }

  ghost predicate AscendingIcons(list: seq<CustomIcon>) {
    forall i, j :: 0 <= i < j < |list| ==> list[i].id < list[j].id
  }

  /** Both sides added the icon, or redrew it, in different ways. */
  ghost predicate IconContested(b: Option<CustomIcon>, l: Option<CustomIcon>, r: Option<CustomIcon>) {
    l.Some? && r.Some? && Shows(l) != Shows(r) && (b.Some? ==> Shows(l) != Shows(b) && Shows(r) != Shows(b))
  }

  ghost predicate SomeIconContested(base: seq<CustomIcon>, local: seq<CustomIcon>, remote: seq<CustomIcon>) {
    exists id :: IconContested(IconOf(base, id), IconOf(local, id), IconOf(remote, id))
  }

  ghost predicate VouchesFor(version: Option<CustomIcon>, icon: CustomIcon, stamp: int) {
    version.Some? && Shows(version) == Shows(Some(icon)) && version.value.lastModified == Some(stamp)
  }

  /**
    What only one side added, redrew or deleted is taken from there; a redrawing
    outlives the other side's deletion. The time is the latest of any version
    that shows the same.
   */
  ghost predicate IconKept(b: Option<CustomIcon>, l: Option<CustomIcon>, r: Option<CustomIcon>, m: Option<CustomIcon>) {
    && EditKept(Shows(b), Shows(l), Shows(r), Shows(m), r.None?)
    && (m.Some? ==>
          && (m.value.lastModified.Some? ==>
                var at := m.value.lastModified.value;
                VouchesFor(b, m.value, at) || VouchesFor(l, m.value, at) || VouchesFor(r, m.value, at))
          && (forall at :: VouchesFor(b, m.value, at) || VouchesFor(l, m.value, at) || VouchesFor(r, m.value, at) ==>
                m.value.lastModified.Some? && at <= m.value.lastModified.value))
  }

  /** The icon selected for one identifier, with its time. */
  function Chosen(b: Option<CustomIcon>, l: Option<CustomIcon>, r: Option<CustomIcon>, id: Uuid): Option<CustomIcon>
    requires SelectedIcon(b, l, r, id).Success?
  {
    match SelectedIcon(b, l, r, id).value
    case None => None
    case Some(icon) => Some(StampedIcon(icon, b, l, r))
  }

  ghost predicate Named(icon: Option<CustomIcon>, id: Uuid) {
    icon.Some? ==> icon.value.id == id
  }

  lemma ChosenIsKept(b: Option<CustomIcon>, l: Option<CustomIcon>, r: Option<CustomIcon>, id: Uuid)
    requires Named(b, id) && Named(l, id) && Named(r, id)
    ensures SelectedIcon(b, l, r, id).Failure? <==> IconContested(b, l, r)
    ensures SelectedIcon(b, l, r, id).Success? ==>
      IconKept(b, l, r, Chosen(b, l, r, id)) && Named(Chosen(b, l, r, id), id)
  {
  }

  lemma {:induction false} IconFound(list: seq<CustomIcon>, id: Uuid)
    ensures Get(IconsById(list), id) == IconOf(list, id)
    ensures Named(IconOf(list, id), id) && (IconOf(list, id).Some? ==> IconOf(list, id).value in list)
  {
    if list != [] {
      IconFound(list[..|list| - 1], id);
    }
  }

  lemma {:induction false} IconConcat(a: seq<CustomIcon>, b: seq<CustomIcon>, id: Uuid)
    ensures IconOf(a + b, id) == if IconOf(b, id).Some? then IconOf(b, id) else IconOf(a, id)
  {
    if b == [] {
      assert a + b == a;
    } else {
      assert (a + b)[..|a + b| - 1] == a + b[..|b| - 1];
      IconConcat(a, b[..|b| - 1], id);
    }
  }

  /** An icon put before the others, if there is one. */
  lemma PutFirst(x: Uuid, head: seq<CustomIcon>, rest: seq<CustomIcon>)
    requires head == [] || (|head| == 1 && head[0].id == x)
    requires AscendingIcons(rest) && forall d :: d in rest ==> x < d.id
    ensures AscendingIcons(head + rest)
    ensures forall id ::
              IconOf(head + rest, id)
              == if id != x then IconOf(rest, id) else if head == [] then None else Some(head[0])
  {
    assert forall k :: 0 <= k < |rest| ==> rest[k] in rest;
    forall id
      ensures IconOf(head + rest, id)
           == if id != x then IconOf(rest, id) else if head == [] then None else Some(head[0])
    {
      IconConcat(head, rest, id);
      IconFound(rest, id);
      assert IconOf([], id) == None;
      if head != [] {
        assert head[..0] == [];
      }
    }
  }

  lemma NoIcons()
    ensures forall id :: IconOf([], id) == None
  {
  }

  lemma {:induction false} ChosenIcons(b: map<Uuid, CustomIcon>, l: map<Uuid, CustomIcon>, r: map<Uuid, CustomIcon>,
                                       ids: seq<Uuid>)
    requires forall i, j :: 0 <= i < j < |ids| ==> ids[i] < ids[j]
    requires forall id :: Named(Get(b, id), id) && Named(Get(l, id), id) && Named(Get(r, id), id)
    requires IconsOf(b, l, r, ids).Success?
    ensures var list := IconsOf(b, l, r, ids).value;
      && AscendingIcons(list) && (forall d :: d in list ==> d.id in ids)
      && (forall id | id in ids ::
            SelectedIcon(Get(b, id), Get(l, id), Get(r, id), id).Success?
            && IconOf(list, id) == Chosen(Get(b, id), Get(l, id), Get(r, id), id))
      && (forall id :: id !in ids ==> IconOf(list, id) == None)
  {
    hide SelectedIcon, StampedIcon, IconKept, IconContested, IconOf, Get;
    if ids == [] {
      NoIcons();
    } else {
      var x := ids[0];
      ChosenIcons(b, l, r, ids[1..]);
      ChosenIsKept(Get(b, x), Get(l, x), Get(r, x), x);
      var chosen := Chosen(Get(b, x), Get(l, x), Get(r, x), x);
      var head: seq<CustomIcon> := if chosen.Some? then [chosen.value] else [];
      var rest := IconsOf(b, l, r, ids[1..]).value;
      assert ids == [x] + ids[1..];
      assert forall k :: 0 <= k < |ids[1..]| ==> ids[1..][k] == ids[k + 1];
      PutFirst(x, head, rest);
      assert forall id :: id in ids <==> id == x || id in ids[1..];
      assert IconsOf(b, l, r, ids).value == head + rest;
    }
  }

  lemma {:induction false} IconsFail(b: map<Uuid, CustomIcon>, l: map<Uuid, CustomIcon>, r: map<Uuid, CustomIcon>,
                                     ids: seq<Uuid>)
    ensures IconsOf(b, l, r, ids).Failure?
       <==> exists id :: id in ids && SelectedIcon(Get(b, id), Get(l, id), Get(r, id), id).Failure?
  {
    hide SelectedIcon, StampedIcon;
    if ids != [] {
      IconsFail(b, l, r, ids[1..]);
      assert forall id :: id in ids <==> id == ids[0] || id in ids[1..];
    }
  }

  lemma IconsFailContested(b: map<Uuid, CustomIcon>, l: map<Uuid, CustomIcon>, r: map<Uuid, CustomIcon>, ids: seq<Uuid>)
    requires forall id :: Named(Get(b, id), id) && Named(Get(l, id), id) && Named(Get(r, id), id)
    requires forall id :: id in ids <==> id in UnionKeys(b, l, r)
    ensures IconsOf(b, l, r, ids).Failure? <==> exists id :: IconContested(Get(b, id), Get(l, id), Get(r, id))
  {
    hide SelectedIcon, StampedIcon;
    IconsFail(b, l, r, ids);
    if id :| id in ids && SelectedIcon(Get(b, id), Get(l, id), Get(r, id), id).Failure? {
      ChosenIsKept(Get(b, id), Get(l, id), Get(r, id), id);
    }
    if id :| IconContested(Get(b, id), Get(l, id), Get(r, id)) {
      ChosenIsKept(Get(b, id), Get(l, id), Get(r, id), id);
      assert id in UnionKeys(b, l, r);
    }
  }

  lemma AllFound(list: seq<CustomIcon>)
    ensures forall id :: Get(IconsById(list), id) == IconOf(list, id) && Named(Get(IconsById(list), id), id)
  {
    forall id ensures Get(IconsById(list), id) == IconOf(list, id) && Named(Get(IconsById(list), id), id) {
      IconFound(list, id);
    }
  }

  lemma Everyone(b: map<Uuid, CustomIcon>, l: map<Uuid, CustomIcon>, r: map<Uuid, CustomIcon>)
    ensures forall id :: id in Ascending(UnionKeys(b, l, r)) <==> id in UnionKeys(b, l, r)
  {
    var ids := Ascending(UnionKeys(b, l, r));
    assert forall id :: id in ids <==> id in IdOrder.Elements(ids);
  }

  /** Merging icons fails exactly on a contested one. */
  lemma MergedIconsFail(base: seq<CustomIcon>, local: seq<CustomIcon>, remote: seq<CustomIcon>)
    ensures MergedIcons(base, local, remote).Failure?
       <==> SomeIconContested(base, local, remote)
  {
    hide IconsById, IconsOf, Get, IconContested, IconOf;
    var b, l, r := IconsById(base), IconsById(local), IconsById(remote);
    AllFound(base);
    AllFound(local);
    AllFound(remote);
    Everyone(b, l, r);
    IconsFailContested(b, l, r, Ascending(UnionKeys(b, l, r)));
    assert MergedIcons(base, local, remote) == IconsOf(b, l, r, Ascending(UnionKeys(b, l, r)));
    hide MergedIcons;
    if id :| IconContested(IconOf(base, id), IconOf(local, id), IconOf(remote, id)) {
      assert IconContested(Get(b, id), Get(l, id), Get(r, id));
    }
    if MergedIcons(base, local, remote).Failure? {
      var id :| IconContested(Get(b, id), Get(l, id), Get(r, id));
      assert IconContested(IconOf(base, id), IconOf(local, id), IconOf(remote, id));
    }
  }

  /** Otherwise it keeps every one-sided change, and lists the icons in order. */
  lemma MergedIconsKept(base: seq<CustomIcon>, local: seq<CustomIcon>, remote: seq<CustomIcon>)
    requires MergedIcons(base, local, remote).Success?
    ensures var merged := MergedIcons(base, local, remote).value;
      && AscendingIcons(merged)
      && forall id :: IconKept(IconOf(base, id), IconOf(local, id), IconOf(remote, id), IconOf(merged, id))
  {
    hide IconsById, IconsOf, SelectedIcon, StampedIcon, IconKept, IconOf;
    var b, l, r := IconsById(base), IconsById(local), IconsById(remote);
    var ids := Ascending(UnionKeys(b, l, r));
    var merged := MergedIcons(base, local, remote).value;
    AllFound(base);
    AllFound(local);
    AllFound(remote);
    Everyone(b, l, r);
    ChosenIcons(b, l, r, ids);
    NothingChosen();
    forall id ensures IconKept(IconOf(base, id), IconOf(local, id), IconOf(remote, id), IconOf(merged, id)) {
      ChosenIsKept(Get(b, id), Get(l, id), Get(r, id), id);
      assert Get(b, id) == IconOf(base, id) && Get(l, id) == IconOf(local, id) && Get(r, id) == IconOf(remote, id);
    }
  }

  lemma NothingChosen()
    ensures IconKept(None, None, None, None)
  {
  }
}
