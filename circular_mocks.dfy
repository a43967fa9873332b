/**
 * The factories the plugin generates in circular mode for the schema
 *
 *     type A { B: B!  C: C! }    type B { A: A! }
 *     type C { aCollection: [A!]! }    type D { A: A!  B: B! }
 *
 * Each factory extends the omission list it was given with its own type name and
 * answers `{}` for every nested type already on the list, so mutual recursion
 * between the factories stops.
 */
module CircularMocks {

  /** A mock value: an object literal or an array literal. */
  datatype Mock = Obj(fields: map<string, Mock>) | Arr(items: seq<Mock>)

  /** The empty object `{}` that stands in for an omitted relationship. */
  const Empty: Mock := Obj(map[])

  /** The type names that have a factory. */
  const Names: set<string> := {"A", "B", "C", "D"}

  /** The type names not yet on an omission list. */
  function Pending(omit: seq<string>): set<string> {
    Names - (set x | x in omit)
  }

  /** Appending a pending name shrinks the pending set. */
  lemma PendingShrinks(omit: seq<string>, name: string)
    requires name in Pending(omit)
    ensures Pending(omit + [name]) < Pending(omit)
    ensures |Pending(omit + [name])| < |Pending(omit)|
  {
    assert Pending(omit + [name]) == Pending(omit) - {name};
  }

  /** Every chain of nested objects in `m` has at most `d` objects. */
  predicate DepthAtMost(m: Mock, d: int) {
    match m
    case Obj(fields) => d >= 1 && forall k | k in fields :: DepthAtMost(fields[k], d - 1)
    case Arr(items) => forall i | 0 <= i < |items| :: DepthAtMost(items[i], d)
  }

  lemma {:induction false} DepthAtMostMonotone(m: Mock, d: int, e: int)
    requires DepthAtMost(m, d) && d <= e
    ensures DepthAtMost(m, e)
  {
    match m
    case Obj(fields) =>
      forall k | k in fields ensures DepthAtMost(fields[k], e - 1) {
        DepthAtMostMonotone(fields[k], d - 1, e - 1);
      }
    case Arr(items) =>
      forall i | 0 <= i < |items| ensures DepthAtMost(items[i], e) {
        DepthAtMostMonotone(items[i], d, e);
      }
  }

  /** One relationship field: the caller's override when present, `{}` when the related
      type is already omitted, and the related factory's object otherwise. */
  function Relationship(overrides: map<string, Mock>, field: string, omitted: bool, nested: Mock): Mock {
    if field in overrides then overrides[field] else if omitted then Empty else nested
  }

  /** `anA`. */
  function AnA(overrides: map<string, Mock>, omit: seq<string>): (r: Mock)
    ensures r.Obj? && r.fields.Keys == {"B", "C"}
    ensures "B" in overrides ==> r.fields["B"] == overrides["B"]
    ensures "C" in overrides ==> r.fields["C"] == overrides["C"]
    ensures "B" !in overrides && "B" in omit + ["A"] ==> r.fields["B"] == Empty
    ensures "C" !in overrides && "C" in omit + ["A"] ==> r.fields["C"] == Empty
    decreases Pending(omit + ["A"])
  {
    var relationshipsToOmit := omit + ["A"];
    var b := if "B" in overrides || "B" in relationshipsToOmit then Empty
             else (PendingShrinks(relationshipsToOmit, "B"); AB(map[], relationshipsToOmit));
    var c := if "C" in overrides || "C" in relationshipsToOmit then Empty
             else (PendingShrinks(relationshipsToOmit, "C"); AC(map[], relationshipsToOmit));
    var r := Obj(map["B" := Relationship(overrides, "B", "B" in relationshipsToOmit, b),
                     "C" := Relationship(overrides, "C", "C" in relationshipsToOmit, c)]);
    r
  }

  /** `aB`. */
  function AB(overrides: map<string, Mock>, omit: seq<string>): (r: Mock)
    ensures r.Obj? && r.fields.Keys == {"A"}
    ensures "A" in overrides ==> r.fields["A"] == overrides["A"]
    ensures "A" !in overrides && "A" in omit + ["B"] ==> r.fields["A"] == Empty
    decreases Pending(omit + ["B"])
  {
    var relationshipsToOmit := omit + ["B"];
    var a := if "A" in overrides || "A" in relationshipsToOmit then Empty
             else (PendingShrinks(relationshipsToOmit, "A"); AnA(map[], relationshipsToOmit));
    var r := Obj(map["A" := Relationship(overrides, "A", "A" in relationshipsToOmit, a)]);
    r
  }

  /** `aC`: the collection always holds exactly one `A`. */
  function AC(overrides: map<string, Mock>, omit: seq<string>): (r: Mock)
    ensures r.Obj? && r.fields.Keys == {"aCollection"}
    ensures "aCollection" in overrides ==> r.fields["aCollection"] == overrides["aCollection"]
    ensures "aCollection" !in overrides ==> r.fields["aCollection"].Arr? && |r.fields["aCollection"].items| == 1
    ensures "aCollection" !in overrides && "A" in omit + ["C"] ==> r.fields["aCollection"] == Arr([Empty])
    decreases Pending(omit + ["C"])
  {
    var relationshipsToOmit := omit + ["C"];
    var a := if "aCollection" in overrides || "A" in relationshipsToOmit then Empty
             else (PendingShrinks(relationshipsToOmit, "A"); AnA(map[], relationshipsToOmit));
    var r := Obj(map["aCollection" := Relationship(overrides, "aCollection", false, Arr([a]))]);
    r
  }

  /** `aD`. */
  function AD(overrides: map<string, Mock>, omit: seq<string>): (r: Mock)
    ensures r.Obj? && r.fields.Keys == {"A", "B"}
    ensures "A" in overrides ==> r.fields["A"] == overrides["A"]
    ensures "B" in overrides ==> r.fields["B"] == overrides["B"]
    ensures "A" !in overrides && "A" in omit + ["D"] ==> r.fields["A"] == Empty
    ensures "B" !in overrides && "B" in omit + ["D"] ==> r.fields["B"] == Empty
    decreases Pending(omit + ["D"])
  {
    var relationshipsToOmit := omit + ["D"];
    var a := if "A" in overrides || "A" in relationshipsToOmit then Empty
             else (PendingShrinks(relationshipsToOmit, "A"); AnA(map[], relationshipsToOmit));
    var b := if "B" in overrides || "B" in relationshipsToOmit then Empty
             else (PendingShrinks(relationshipsToOmit, "B"); AB(map[], relationshipsToOmit));
    var r := Obj(map["A" := Relationship(overrides, "A", "A" in relationshipsToOmit, a),
                     "B" := Relationship(overrides, "B", "B" in relationshipsToOmit, b)]);
    r
  }

  // ---------------------------------------------------------------------------
  // Termination depth

  /** A nested field of a factory called without overrides: `{}` when the field's type is
      omitted, otherwise the nested factory's object, which is shallow enough. */
  lemma NestedDepth(field: Mock, omitted: bool, nested: Mock, omit: seq<string>, name: string, d: int)
    requires d == |Pending(omit)| + 1
    requires omitted ==> field == Empty
    requires !omitted ==> field == nested && name in Pending(omit)
                          && DepthAtMost(nested, |Pending(omit + [name])| + 2)
    ensures DepthAtMost(field, d)
  {
    if !omitted {
      PendingShrinks(omit, name);
      DepthAtMostMonotone(nested, |Pending(omit + [name])| + 2, d);
    }
  }

  /** Without overrides, `anA` nests at most as many objects as there are type names it has
      not yet visited, plus its own object and a final `{}`. */
  lemma {:induction false} AnADepth(omit: seq<string>)
    ensures DepthAtMost(AnA(map[], omit), |Pending(omit + ["A"])| + 2)
    decreases Pending(omit + ["A"])
  {
    var relationshipsToOmit := omit + ["A"];
    var r := AnA(map[], omit);
    var d := |Pending(relationshipsToOmit)| + 1;
    if "B" !in relationshipsToOmit {
      PendingShrinks(relationshipsToOmit, "B");
      ABDepth(relationshipsToOmit);
    }
    NestedDepth(r.fields["B"], "B" in relationshipsToOmit, AB(map[], relationshipsToOmit), relationshipsToOmit, "B", d);
    if "C" !in relationshipsToOmit {
      PendingShrinks(relationshipsToOmit, "C");
      ACDepth(relationshipsToOmit);
    }
    NestedDepth(r.fields["C"], "C" in relationshipsToOmit, AC(map[], relationshipsToOmit), relationshipsToOmit, "C", d);
  }

  lemma {:induction false} ABDepth(omit: seq<string>)
    ensures DepthAtMost(AB(map[], omit), |Pending(omit + ["B"])| + 2)
    decreases Pending(omit + ["B"])
  {
    var relationshipsToOmit := omit + ["B"];
    var r := AB(map[], omit);
    var d := |Pending(relationshipsToOmit)| + 1;
    if "A" !in relationshipsToOmit {
      PendingShrinks(relationshipsToOmit, "A");
      AnADepth(relationshipsToOmit);
    }
    NestedDepth(r.fields["A"], "A" in relationshipsToOmit, AnA(map[], relationshipsToOmit), relationshipsToOmit, "A", d);
  }

  lemma {:induction false} ACDepth(omit: seq<string>)
    ensures DepthAtMost(AC(map[], omit), |Pending(omit + ["C"])| + 2)
    decreases Pending(omit + ["C"])
  {
    var relationshipsToOmit := omit + ["C"];
    var r := AC(map[], omit);
    var d := |Pending(relationshipsToOmit)| + 1;
    var element := r.fields["aCollection"].items[0];
    if "A" !in relationshipsToOmit {
      PendingShrinks(relationshipsToOmit, "A");
      AnADepth(relationshipsToOmit);
    }
    NestedDepth(element, "A" in relationshipsToOmit, AnA(map[], relationshipsToOmit), relationshipsToOmit, "A", d);
  }

  lemma {:induction false} ADDepth(omit: seq<string>)
    ensures DepthAtMost(AD(map[], omit), |Pending(omit + ["D"])| + 2)
    decreases Pending(omit + ["D"])
  {
    var relationshipsToOmit := omit + ["D"];
    var r := AD(map[], omit);
    var d := |Pending(relationshipsToOmit)| + 1;
    assert DepthAtMost(r.fields["A"], d) by {
      if "A" !in relationshipsToOmit {
        PendingShrinks(relationshipsToOmit, "A");
        AnADepth(relationshipsToOmit);
      }
      NestedDepth(r.fields["A"], "A" in relationshipsToOmit, AnA(map[], relationshipsToOmit), relationshipsToOmit, "A", d);
    }
    assert DepthAtMost(r.fields["B"], d) by {
      if "B" !in relationshipsToOmit {
        PendingShrinks(relationshipsToOmit, "B");
        ABDepth(relationshipsToOmit);
      }
      NestedDepth(r.fields["B"], "B" in relationshipsToOmit, AB(map[], relationshipsToOmit), relationshipsToOmit, "B", d);
    }
  }

  /** `anA()` is `{ B: { A: {} }, C: { aCollection: [{}] } }`. */
  lemma AnAFresh()
    ensures AnA(map[], []) == Obj(map["B" := Obj(map["A" := Empty]), "C" := Obj(map["aCollection" := Arr([Empty])])])
  {
  }

  /** `aB()` is `{ A: { B: {}, C: { aCollection: [{}] } } }`. */
  lemma ABFresh()
    ensures AB(map[], []) == Obj(map["A" := Obj(map["B" := Empty, "C" := Obj(map["aCollection" := Arr([Empty])])])])
  {
  }

  /** `aC()` is `{ aCollection: [{ B: { A: {} }, C: {} }] }`. */
  lemma ACFresh()
    ensures AC(map[], []) == Obj(map["aCollection" := Arr([Obj(map["B" := Obj(map["A" := Empty]), "C" := Empty])])])
  {
  }

  /** `aD()` nests a fresh-looking `anA` and `aB` below it, since `D` is never referenced. */
  lemma ADFresh()
    ensures AD(map[], []) ==
              Obj(map["A" := Obj(map["B" := Obj(map["A" := Empty]), "C" := Obj(map["aCollection" := Arr([Empty])])]),
                      "B" := Obj(map["A" := Obj(map["B" := Empty, "C" := Obj(map["aCollection" := Arr([Empty])])])])])
  {
    assert [] + ["D"] == ["D"];
    var d := AD(map[], []);
    assert d.fields["A"] == AnA(map[], ["D"]);
    assert d.fields["B"] == AB(map[], ["D"]);
    assert AnA(map[], ["D"]) == Obj(map["B" := Obj(map["A" := Empty]), "C" := Obj(map["aCollection" := Arr([Empty])])]);
    assert AB(map[], ["D"]) == Obj(map["A" := Obj(map["B" := Empty, "C" := Obj(map["aCollection" := Arr([Empty])])])]);
  }

  lemma PendingOfOne(omit: seq<string>, name: string)
    requires omit == [] && name in Names
    ensures |Pending(omit + [name])| == 3
  {
    assert omit + [name] == [name];
    assert Pending([name]) == Names - {name};
  }

  /** From a fresh start no factory nests more than four factory objects: at most five
      levels of objects, counting the final `{}`. */
  lemma FreshCallDepth(omit: seq<string>)
    requires omit == []
    ensures DepthAtMost(AnA(map[], omit), 5) && DepthAtMost(AB(map[], omit), 5)
    ensures DepthAtMost(AC(map[], omit), 5) && DepthAtMost(AD(map[], omit), 5)
  {
    assert DepthAtMost(AnA(map[], omit), 5) by {
      AnADepth(omit);
      PendingOfOne(omit, "A");
    }
    assert DepthAtMost(AB(map[], omit), 5) by {
      ABDepth(omit);
      PendingOfOne(omit, "B");
    }
    assert DepthAtMost(AC(map[], omit), 5) by {
      ACDepth(omit);
      PendingOfOne(omit, "C");
    }
    assert DepthAtMost(AD(map[], omit), 5) by {
      ADDepth(omit);
      PendingOfOne(omit, "D");
    }
  }
}
