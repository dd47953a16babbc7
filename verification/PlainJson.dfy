/** The values that no collision of the printer touches, and what it tells apart among them. */
module PlainJson {
  import opened Sorting
  import opened StableJson

  /** Nowhere an array of exactly one undefined, nor a number that prints as `null`. */
  ghost predicate Plain(v: Json)
    decreases v
  {
    match v
    case NonFinite => false
    case Array(items) => items != [Undefined] && forall i :: 0 <= i < |items| ==> Plain(items[i])
    case Object(members) => forall i :: 0 <= i < |members| ==> Plain(members[i].value)
    case _ => true
  }

  /** The same value up to the order of keys and members that are undefined. */
  ghost predicate Alike(v: Json, w: Json)
    decreases v
  {
    match v
    case Array(items) =>
      w.Array? && |items| == |w.items| && forall i :: 0 <= i < |items| ==> Alike(items[i], w.items[i])
    case Object(members) =>
      && w.Object?
      && (forall k :: HasKey(w.members, k) ==> HasKey(members, k))
      && forall i :: 0 <= i < |members| && !members[i].value.Undefined? ==>
           exists j :: 0 <= j < |w.members| && w.members[j].key == members[i].key
                       && !w.members[j].value.Undefined? && Alike(members[i].value, w.members[j].value)
    case _ => v == w
  }

  lemma {:induction false} MeanIsAlike(v: Json, w: Json)
    requires WellFormed(v) && WellFormed(w) && Plain(v) && Plain(w)
    ensures Mean(v) == Mean(w) <==> Alike(v, w)
    decreases v, 1
  {
    if v.Array? && w.Array? {
      MeanArrays(v, w);
    } else if v.Object? && w.Object? {
      if Mean(v) == Mean(w) {
        MeanObjects(v, w);
      }
      if Alike(v, w) {
        AlikeObjects(v, w);
      }
    }
  }

  lemma {:induction false} MeanArrays(v: Json, w: Json)
    requires v.Array? && w.Array? && WellFormed(v) && WellFormed(w) && Plain(v) && Plain(w)
    ensures Mean(v) == Mean(w) <==> Alike(v, w)
    decreases v, 0
  {
    var ms, ns := MeanItems(v, v.items), MeanItems(w, w.items);
    if |v.items| == |w.items| {
      forall i | 0 <= i < |v.items|
        ensures ms[i] == ns[i] <==> Alike(v.items[i], w.items[i])
      {
        MeanIsAlike(v.items[i], w.items[i]);
      }
    }
    hide MeanItems;
    assert Mean(v) == MArray(ms) && Mean(w) == MArray(ns);
  }

  lemma {:induction false} MembersPlain(v: Json)
    requires v.Object? && WellFormed(v) && Plain(v)
    ensures DistinctKeys(v.members)
    ensures forall i :: 0 <= i < |v.members| ==>
      v.members[i] in v.members && v.members[i].value < v && WellFormed(v.members[i].value) && Plain(v.members[i].value)
  {
  }

  /** The members of a plain object, and the meaning of the object, by key. */
  lemma {:induction false} ObjectFacts(v: Json)
    requires v.Object? && WellFormed(v) && Plain(v)
    ensures Mean(v) == MObject(MeanMembers(v, v.members))
    ensures forall m :: m in v.members ==> m.value < v && WellFormed(m.value) && Plain(m.value)
    ensures forall k :: k in MeanMembers(v, v.members) ==> HasKey(v.members, k)
    ensures forall m :: m in v.members && !m.value.Undefined? ==>
      m.key in MeanMembers(v, v.members) && MeanMembers(v, v.members)[m.key] == Mean(m.value)
  {
    MembersPlain(v);
    hide Plain, WellFormed, HasKey, MeanMembers;
    MeanMembersLookup(v, v.members);
  }

  lemma {:induction false} MeanObjects(v: Json, w: Json)
    requires v.Object? && w.Object? && WellFormed(v) && WellFormed(w) && Plain(v) && Plain(w) && Mean(v) == Mean(w)
    ensures Alike(v, w)
    decreases v, 0
  {
    hide Plain, WellFormed, Mean, MeanMembers;
    ObjectFacts(v);
    ObjectFacts(w);
    forall i | 0 <= i < |v.members| && !v.members[i].value.Undefined?
      ensures exists j :: 0 <= j < |w.members| && w.members[j].key == v.members[i].key
                          && !w.members[j].value.Undefined? && Alike(v.members[i].value, w.members[j].value)
    {
      var m :| m in w.members && m.key == v.members[i].key && !m.value.Undefined?;
      var j :| 0 <= j < |w.members| && w.members[j] == m;
      MeanIsAlike(v.members[i].value, w.members[j].value);
    }
    forall k | HasKey(w.members, k)
      ensures HasKey(v.members, k)
    {
      assert k in MeanMembers(v, v.members);
    }
  }

  lemma {:induction false} AlikeMember(v: Json, w: Json, m: Member) returns (n: Member)
    requires v.Object? && w.Object? && Alike(v, w) && m in v.members && !m.value.Undefined?
    ensures n in w.members && n.key == m.key && !n.value.Undefined? && Alike(m.value, n.value)
  {
    var i :| 0 <= i < |v.members| && v.members[i] == m;
    var j :| 0 <= j < |w.members| && w.members[j].key == m.key && !w.members[j].value.Undefined?
             && Alike(v.members[i].value, w.members[j].value);
    n := w.members[j];
  }

  lemma {:induction false} AlikeKeys(v: Json, w: Json)
    requires v.Object? && w.Object? && Alike(v, w)
    ensures forall k :: HasKey(w.members, k) ==> HasKey(v.members, k)
  {
    hide HasKey;
  }

  lemma {:induction false} AlikeObjects(v: Json, w: Json)
    requires v.Object? && w.Object? && WellFormed(v) && WellFormed(w) && Plain(v) && Plain(w) && Alike(v, w)
    ensures Mean(v) == Mean(w)
    decreases v, 0
  {
    hide Plain, WellFormed, Mean, MeanMembers, Alike;
    ObjectFacts(v);
    ObjectFacts(w);
    AlikeKeys(v, w);
    var ms, ns := MeanMembers(v, v.members), MeanMembers(w, w.members);
    forall k | k in ms
      ensures k in ns && ns[k] == ms[k]
    {
      var m :| m in v.members && m.key == k && !m.value.Undefined?;
      var n := AlikeMember(v, w, m);
      MeanIsAlike(m.value, n.value);
    }
    forall k | k in ns
      ensures k in ms
    {
      assert HasKey(v.members, k);
    }
    assert ms == ns;
  }

  /** Plain values print the same exactly when they are the same up to key order and undefined members. */
  lemma {:induction false} PlainPrintsApart(before: KeyOrder, v: Json, w: Json)
    requires TotalOrder(before) && WellFormed(v) && WellFormed(w) && Plain(v) && Plain(w)
    ensures Print(before, v) == Print(before, w) <==> Alike(v, w)
  {
    hide *;
    PrintIsCanonical(before, v, w);
    MeanIsAlike(v, w);
  }
}
