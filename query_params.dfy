/**
 * The insertion-ordered parameter map the proxy servlet builds from a
 * request's query string (a `LinkedHashMap<String, String>`), and the
 * forwarded query string it rebuilds from what is left in the map.
 */
module QueryParams {
  import opened Wrappers
  import opened Text

  /** One parsed query parameter; the value is None (Java null) when the piece had no '='. */
  datatype Param = Param(name: string, value: Option<string>)

  function Names(ps: seq<Param>): (r: seq<string>)
    ensures |r| == |ps|
    ensures forall i :: 0 <= i < |ps| ==> r[i] == ps[i].name
  {
    if |ps| == 0 then [] else [ps[0].name] + Names(ps[1..])
  }

  predicate DistinctNames(ps: seq<Param>) {
    forall i, j :: 0 <= i < j < |ps| ==> ps[i].name != ps[j].name
  }

  /** `map.get(name)` together with `containsKey`: None when absent, Some(value) when present. */
  function Lookup(ps: seq<Param>, name: string): (r: Option<Option<string>>)
    ensures r.None? <==> name !in Names(ps)
    ensures r.Some? ==> exists i :: 0 <= i < |ps| && ps[i].name == name && ps[i].value == r.value
  {
    if |ps| == 0 then None
    else if ps[0].name == name then Some(ps[0].value)
    else
      var r := Lookup(ps[1..], name);
      assert Names(ps) == [ps[0].name] + Names(ps[1..]);
      if r.Some? then
        var i :| 0 <= i < |ps[1..]| && ps[1..][i].name == name && ps[1..][i].value == r.value;
        assert ps[i + 1] == ps[1..][i];
        r
      else r
  }

  /** Java `Map.get`: the value stored under a name, or null both for an absent name and for a null value. */
  function ValueOf(ps: seq<Param>, name: string): (r: Option<string>)
    ensures r.Some? ==> name in Names(ps) && Lookup(ps, name) == Some(r)
    ensures name !in Names(ps) ==> r.None?
    ensures name in Names(ps) ==> exists i :: 0 <= i < |ps| && ps[i].name == name && ps[i].value == r
  {
    match Lookup(ps, name)
    case Some(v) => v
    case None => None
  }

  /**
   * `LinkedHashMap.put`: a name already present keeps its position and takes
   * the new value; a new name goes to the end.
   */
  function PutParam(ps: seq<Param>, name: string, value: Option<string>): seq<Param>
  {
    if |ps| == 0 then [Param(name, value)]
    else if ps[0].name == name then [Param(name, value)] + ps[1..]
    else [ps[0]] + PutParam(ps[1..], name, value)
  }

  /** `LinkedHashMap.remove`: drops the entry with that name, keeping the others in order. */
  function RemoveParam(ps: seq<Param>, name: string): seq<Param>
  {
    if |ps| == 0 then []
    else if ps[0].name == name then RemoveParam(ps[1..], name)
    else [ps[0]] + RemoveParam(ps[1..], name)
  }

  /** A list of names with every occurrence of one name taken out, the others in order. */
  function OtherNames(names: seq<string>, name: string): seq<string>
  {
    if |names| == 0 then []
    else
      var init := OtherNames(names[..|names| - 1], name);
      if names[|names| - 1] == name then init else init + [names[|names| - 1]]
  }

  /** The map obtained by putting every parsed pair in turn into an empty map. */
  function FromPairs(pairs: seq<Param>): seq<Param>
  {
    if |pairs| == 0 then [] else PutParam(FromPairs(pairs[..|pairs| - 1]), pairs[|pairs| - 1].name, pairs[|pairs| - 1].value)
  }

  /** The names of a sequence, each kept only at its first occurrence. */
  function FirstOccurrences(names: seq<string>): seq<string>
  {
    if |names| == 0 then []
    else
      var init := FirstOccurrences(names[..|names| - 1]);
      if names[|names| - 1] in names[..|names| - 1] then init else init + [names[|names| - 1]]
  }

  // ---------------------------------------------------------------------------
  // Properties of put and remove
  // ---------------------------------------------------------------------------

  lemma {:induction false} PutParamNames(ps: seq<Param>, name: string, value: Option<string>)
    ensures Names(PutParam(ps, name, value)) == if name in Names(ps) then Names(ps) else Names(ps) + [name]
  {
    if |ps| > 0 {
      PutParamNames(ps[1..], name, value);
      assert Names(ps) == [ps[0].name] + Names(ps[1..]);
      var r := PutParam(ps, name, value);
      if ps[0].name == name {
        assert Names(r) == [name] + Names(ps[1..]);
      } else {
        assert Names(r) == [ps[0].name] + Names(PutParam(ps[1..], name, value));
      }
    }
  }

  lemma {:induction false} PutParamLookup(ps: seq<Param>, name: string, value: Option<string>, other: string)
    ensures Lookup(PutParam(ps, name, value), other) == if other == name then Some(value) else Lookup(ps, other)
  {
    if |ps| > 0 && ps[0].name != name {
      PutParamLookup(ps[1..], name, value, other);
    }
  }

  lemma {:induction false} PutParamDistinct(ps: seq<Param>, name: string, value: Option<string>)
    requires DistinctNames(ps)
    ensures DistinctNames(PutParam(ps, name, value))
  {
    PutParamNames(ps, name, value);
    var r := PutParam(ps, name, value);
    assert forall i :: 0 <= i < |r| ==> r[i].name == Names(r)[i];
    assert forall i :: 0 <= i < |ps| ==> ps[i].name == Names(ps)[i];
    if name !in Names(ps) {
      forall i, j | 0 <= i < j < |r| ensures r[i].name != r[j].name {
        if j == |ps| { assert Names(r)[i] == Names(ps)[i]; }
      }
    }
  }

  lemma {:induction false} RemoveParamNames(ps: seq<Param>, name: string)
    ensures name !in Names(RemoveParam(ps, name))
    ensures forall n :: n != name ==> (n in Names(RemoveParam(ps, name)) <==> n in Names(ps))
  {
    if |ps| > 0 {
      RemoveParamNames(ps[1..], name);
      assert Names(ps) == [ps[0].name] + Names(ps[1..]);
      if ps[0].name != name {
        assert Names(RemoveParam(ps, name)) == [ps[0].name] + Names(RemoveParam(ps[1..], name));
      }
    }
  }

  lemma {:induction false} RemoveParamLookup(ps: seq<Param>, name: string, other: string)
    ensures Lookup(RemoveParam(ps, name), other) == if other == name then None else Lookup(ps, other)
  {
    RemoveParamNames(ps, name);
    if |ps| > 0 {
      RemoveParamLookup(ps[1..], name, other);
    }
  }

  /** Removal keeps the remaining entries in their original relative order: the result is a subsequence. */
  lemma {:induction false} RemoveParamSubsequence(ps: seq<Param>, name: string)
    ensures |RemoveParam(ps, name)| <= |ps|
    ensures forall p :: p in RemoveParam(ps, name) ==> p in ps && p.name != name
    ensures forall p :: p in ps && p.name != name ==> p in RemoveParam(ps, name)
    ensures Names(RemoveParam(ps, name)) == OtherNames(Names(ps), name)
  {
    if |ps| > 0 {
      RemoveParamSubsequence(ps[1..], name);
      assert forall p :: p in ps <==> p == ps[0] || p in ps[1..];
      assert Names(ps) == [ps[0].name] + Names(ps[1..]);
      if ps[0].name != name {
        assert Names(RemoveParam(ps, name)) == [ps[0].name] + Names(RemoveParam(ps[1..], name));
      }
      OtherNamesCons(ps[0].name, Names(ps[1..]), name);
    }
  }

  /** Taking a name out works from the front as well as from the back. */
  lemma {:induction false} OtherNamesCons(first: string, rest: seq<string>, name: string)
    ensures OtherNames([first] + rest, name) == (if first == name then [] else [first]) + OtherNames(rest, name)
    decreases |rest|
  {
    if |rest| > 0 {
      var all := [first] + rest;
      assert all[..|all| - 1] == [first] + rest[..|rest| - 1];
      assert all[|all| - 1] == rest[|rest| - 1];
      OtherNamesCons(first, rest[..|rest| - 1], name);
    } else {
      assert ([first] + rest)[..0] == [];
    }
  }

  lemma {:induction false} RemoveParamDistinct(ps: seq<Param>, name: string)
    requires DistinctNames(ps)
    ensures DistinctNames(RemoveParam(ps, name))
  {
    if |ps| > 0 {
      RemoveParamDistinct(ps[1..], name);
      if ps[0].name != name {
        var rest := RemoveParam(ps[1..], name);
        RemoveParamSubsequence(ps[1..], name);
        forall p | p in rest ensures p.name != ps[0].name {
          NotFirstName(ps, p);
        }
        ConsDistinct(ps[0], rest);
      }
    }
  }

  lemma NotFirstName(ps: seq<Param>, p: Param)
    requires DistinctNames(ps) && |ps| > 0 && p in ps[1..]
    ensures p.name != ps[0].name
  {
    var k :| 0 <= k < |ps[1..]| && ps[1..][k] == p;
    assert ps[k + 1] == p;
  }

  lemma ConsDistinct(p: Param, rest: seq<Param>)
    requires DistinctNames(rest)
    requires forall q :: q in rest ==> q.name != p.name
    ensures DistinctNames([p] + rest)
  {
    var r := [p] + rest;
    forall i, j | 0 <= i < j < |r| ensures r[i].name != r[j].name {
      assert r[j] == rest[j - 1];
      if i > 0 { assert r[i] == rest[i - 1]; } else { assert r[j] in rest; }
    }
  }

  /**
   * Building the map from parsed pairs keeps each name at the position of its
   * FIRST occurrence, and the map holds the value of its LAST occurrence.
   */
  lemma {:induction false} FromPairsOrder(pairs: seq<Param>)
    ensures DistinctNames(FromPairs(pairs))
    ensures Names(FromPairs(pairs)) == FirstOccurrences(Names(pairs))
  {
    if |pairs| > 0 {
      var init := pairs[..|pairs| - 1];
      var last := pairs[|pairs| - 1];
      FromPairsOrder(init);
      PutParamNames(FromPairs(init), last.name, last.value);
      PutParamDistinct(FromPairs(init), last.name, last.value);
      FirstOccurrencesMembers(Names(init));
      assert Names(pairs)[..|pairs| - 1] == Names(init);
    }
  }

  lemma {:induction false} FromPairsLookup(pairs: seq<Param>, name: string, k: nat)
    requires k < |pairs| && pairs[k].name == name
    requires forall j :: k < j < |pairs| ==> pairs[j].name != name
    ensures Lookup(FromPairs(pairs), name) == Some(pairs[k].value)
  {
    var init := pairs[..|pairs| - 1];
    var last := pairs[|pairs| - 1];
    PutParamLookup(FromPairs(init), last.name, last.value, name);
    if k < |pairs| - 1 {
      FromPairsLookup(init, name, k);
    }
  }

  /** Every entry of the built map is one of the parsed pairs. */
  lemma {:induction false} FromPairsMembers(pairs: seq<Param>)
    ensures forall p :: p in FromPairs(pairs) ==> p in pairs
  {
    if |pairs| > 0 {
      var init := pairs[..|pairs| - 1];
      var last := pairs[|pairs| - 1];
      FromPairsMembers(init);
      PutParamMembers(FromPairs(init), last.name, last.value);
      assert forall p :: p in init ==> p in pairs;
    }
  }

  lemma {:induction false} PutParamMembers(ps: seq<Param>, name: string, value: Option<string>)
    ensures forall p :: p in PutParam(ps, name, value) ==> p in ps || p == Param(name, value)
  {
    if |ps| > 0 && ps[0].name != name {
      PutParamMembers(ps[1..], name, value);
      assert forall p :: p in ps[1..] ==> p in ps;
    } else if |ps| > 0 {
      assert forall p :: p in ps[1..] ==> p in ps;
    }
  }

  lemma {:induction false} FirstOccurrencesMembers(names: seq<string>)
    ensures forall n :: n in FirstOccurrences(names) <==> n in names
  {
    if |names| > 0 {
      FirstOccurrencesMembers(names[..|names| - 1]);
      assert names == names[..|names| - 1] + [names[|names| - 1]];
    }
  }

  // ---------------------------------------------------------------------------
  // The forwarded query string
  // ---------------------------------------------------------------------------

  /** One forwarded parameter: `name=value`, or `name=` for a null value. */
  function Render(p: Param): string {
    p.name + "=" + p.value.GetOr("")
  }

  function RenderAll(ps: seq<Param>): (r: seq<string>)
    ensures |r| == |ps|
    ensures forall i :: 0 <= i < |ps| ==> r[i] == Render(ps[i])
  {
    if |ps| == 0 then [] else [Render(ps[0])] + RenderAll(ps[1..])
  }

  /** The forwarded query: the rendered entries, in map order, joined by '&'. */
  function QueryOf(ps: seq<Param>): string {
    Join(RenderAll(ps), '&')
  }

  /**
   * The loop that rebuilds the forwarded query string in a StringBuilder:
   * an '&' goes before every entry but the first, then `name=`, then the value
   * unless it is null.
   */
  method BuildQuery(ps: seq<Param>) returns (q: string)
    ensures q == QueryOf(ps)
  {
    var buf := "";
    var i := 0;
    while i < |ps|
      invariant 0 <= i <= |ps|
      invariant buf == Join(RenderAll(ps[..i]), '&')
      invariant |buf| > 0 <==> i > 0
    {
      var p := ps[i];
      JoinSnoc(RenderAll(ps[..i]), Render(p), '&');
      RenderAllSnoc(ps, i);
      if |buf| > 0 {
        buf := buf + "&";
      }
      ghost var mid := buf;
      buf := buf + p.name + "=";
      AppendAssoc(mid, p.name, "=");
      if p.value.Some? {
        buf := buf + p.value.value;
        AppendAssoc(mid, p.name + "=", p.value.value);
      }
      i := i + 1;
    }
    assert ps[..|ps|] == ps;
    q := buf;
  }

  lemma RenderAllSnoc(ps: seq<Param>, i: nat)
    requires i < |ps|
    ensures RenderAll(ps[..i + 1]) == RenderAll(ps[..i]) + [Render(ps[i])]
  {
    var a, b := RenderAll(ps[..i + 1]), RenderAll(ps[..i]) + [Render(ps[i])];
    assert |a| == |b|;
    forall k | 0 <= k < |a| ensures a[k] == b[k] {
      assert ps[..i + 1][k] == ps[k];
    }
  }

  predicate PlainParam(p: Param) {
    '&' !in p.name && '=' !in p.name && (p.value.Some? ==> '&' !in p.value.value)
  }

  /**
   * When no name holds '&' or '=' and no value holds '&', splitting the
   * forwarded query on '&' and each piece on '=' gives back exactly the map's
   * names, in order.
   */
  lemma QueryNames(ps: seq<Param>)
    requires |ps| >= 1
    requires forall i :: 0 <= i < |ps| ==> PlainParam(ps[i])
    ensures var pieces := Split(QueryOf(ps), '&');
      |pieces| == |ps| && forall i :: 0 <= i < |ps| ==> Split(pieces[i], '=')[0] == ps[i].name
  {
    var rendered := RenderAll(ps);
    forall i | 0 <= i < |ps| ensures '&' !in rendered[i] && Split(rendered[i], '=')[0] == ps[i].name {
      RenderedName(ps[i]);
    }
    SplitJoin(rendered, '&');
  }

  /** A plain entry renders without '&', and its text up to the first '=' is its name. */
  lemma RenderedName(p: Param)
    requires PlainParam(p)
    ensures '&' !in Render(p) && Split(Render(p), '=')[0] == p.name
  {
    var v := p.value.GetOr("");
    var r := Render(p);
    assert r == p.name + ("=" + v);
    SeparatorAt(p.name, '=', v);
  }

  // ---------------------------------------------------------------------------
  // The map object the servlet mutates
  // ---------------------------------------------------------------------------

  class ParamMap {
    var entries: seq<Param>

    ghost predicate Valid()
      reads this
    {
      DistinctNames(entries)
    }

    constructor ()
      ensures Valid() && entries == []
    {
      entries := [];
    }

    function ContainsKey(name: string): (r: bool)
      reads this
      ensures r <==> name in Names(entries)
    {
      Lookup(entries, name).Some?
    }

    /** Java `get`: the stored value, or null for an absent name as for a null value. */
    function Get(name: string): (r: Option<string>)
      reads this
      ensures r.Some? ==> name in Names(entries)
      ensures Valid() ==> forall i :: 0 <= i < |entries| && entries[i].name == name ==> r == entries[i].value
    {
      ValueOf(entries, name)
    }

    method Put(name: string, value: Option<string>)
      requires Valid()
      modifies this
      ensures Valid()
      ensures entries == PutParam(old(entries), name, value)
    {
      PutParamDistinct(entries, name, value);
      entries := PutParam(entries, name, value);
    }

    method Remove(name: string)
      requires Valid()
      modifies this
      ensures Valid()
      ensures entries == RemoveParam(old(entries), name)
      ensures !ContainsKey(name)
    {
      RemoveParamDistinct(entries, name);
      RemoveParamNames(entries, name);
      entries := RemoveParam(entries, name);
    }
  }
}
