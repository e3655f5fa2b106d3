/**
 Additive merging (M4/app/enrichment/merger.py) and the attachment of
 provenance (M4/app/provenance/tracker.py) in an event's extensions.
 */
module EnrichmentMerge {
  import opened Results
  import opened EnrichmentModel

  /** A dictionary value's entries; a missing or non-dictionary value reads as empty. */
  function SubDict(d: Fields, key: string): Fields {
    if key in d && d[key].Dict? then d[key].fields else map[]
  }

  /** `extensions["enrichment"][namespace][key]`, if that path exists. */
  function Field(ext: Fields, namespace: string, key: string): Option<Data> {
    var space := SubDict(SubDict(ext, "enrichment"), namespace);
    if key in space then Some(space[key]) else None
  }

  /** The extensions after a provider's data is merged: what is there already wins. */
  function Merged(ext: Fields, namespace: string, data: Fields): Fields {
    if data == map[] then ext else
      var root := SubDict(ext, "enrichment");
      var space := SubDict(root, namespace);
      ext["enrichment" := Dict(root[namespace := Dict(data + space)])]
  }

  method MergeOutput(ext: Fields, namespace: string, data: Fields) returns (r: Fields)
    ensures r == Merged(ext, namespace, data)
  {
    if data == map[] {
      return ext;
    }
    r := ext;
    if "enrichment" !in r {
      r := r["enrichment" := Dict(map[])];
    }
    var root: Fields := map[];
    if r["enrichment"].Dict? {
      root := r["enrichment"].fields;
    }
    if namespace !in root {
      root := root[namespace := Dict(map[])];
    }
    var space: Fields := map[];
    if root[namespace].Dict? {
      space := root[namespace].fields;
    }
    ghost var before := space;
    var todo := data.Keys;
    // The dictionary is visited in whatever order it has.
    while todo != {}
      invariant todo <= data.Keys
      invariant space == (map k | k in data.Keys - todo :: data[k]) + before
    {
      var k :| k in todo;
      if k !in space {
        space := space[k := data[k]];
      }
      todo := todo - {k};
    }
    assert space == data + before;
    root := root[namespace := Dict(space)];
    r := r["enrichment" := Dict(root)];
    assert r["enrichment"] == Merged(ext, namespace, data)["enrichment"];
  }

  /** The provenance list replaces whatever stood at `extensions["enrichment"]["provenance"]`. */
  function Attached(ext: Fields, provenance: Data): Fields {
    ext["enrichment" := Dict(SubDict(ext, "enrichment")["provenance" := provenance])]
  }

  method AttachProvenance(ext: Fields, provenance: Data) returns (r: Fields)
    ensures r == Attached(ext, provenance)
  {
    r := ext;
    if "enrichment" !in r {
      r := r["enrichment" := Dict(map[])];
    }
    if !r["enrichment"].Dict? {
      r := r["enrichment" := Dict(map[])];
    }
    r := r["enrichment" := Dict(r["enrichment"].fields["provenance" := provenance])];
  }

  // ---- several merges ----

  /** What one provider contributes; nothing unless it succeeded. */
  datatype Contribution = Contribution(namespace: string, data: Fields)

  function MergeAll(ext: Fields, cs: seq<Contribution>): Fields
    decreases |cs|
  {
    if cs == [] then ext else MergeAll(Merged(ext, cs[0].namespace, cs[0].data), cs[1..])
  }

  lemma {:induction false} MergeAllSnoc(ext: Fields, cs: seq<Contribution>, c: Contribution)
    ensures MergeAll(ext, cs + [c]) == Merged(MergeAll(ext, cs), c.namespace, c.data)
    decreases |cs|
  {
    if cs != [] {
      assert (cs + [c])[1..] == cs[1..] + [c];
      MergeAllSnoc(Merged(ext, cs[0].namespace, cs[0].data), cs[1..], c);
    } else {
      assert ([] + [c])[1..] == [];
    }
  }

  /** The first contribution that has the field. */
  function FirstSupplied(cs: seq<Contribution>, namespace: string, key: string): Option<Data> {
    if cs == [] then None
    else if cs[0].namespace == namespace && key in cs[0].data then Some(cs[0].data[key])
    else FirstSupplied(cs[1..], namespace, key)
  }

  lemma {:induction false} FirstSuppliedIsFirst(cs: seq<Contribution>, namespace: string, key: string)
    ensures FirstSupplied(cs, namespace, key).None? <==>
            forall i :: 0 <= i < |cs| ==> !(cs[i].namespace == namespace && key in cs[i].data)
    ensures FirstSupplied(cs, namespace, key).Some? ==>
            exists i :: 0 <= i < |cs| && cs[i].namespace == namespace && key in cs[i].data
                     && FirstSupplied(cs, namespace, key) == Some(cs[i].data[key])
                     && forall j :: 0 <= j < i ==> !(cs[j].namespace == namespace && key in cs[j].data)
  {
    if cs != [] && !(cs[0].namespace == namespace && key in cs[0].data) {
      FirstSuppliedIsFirst(cs[1..], namespace, key);
      assert forall i :: 1 <= i < |cs| ==> cs[i] == cs[1..][i - 1];
      if FirstSupplied(cs, namespace, key).Some? {
        var i :| 0 <= i < |cs[1..]| && cs[1..][i].namespace == namespace && key in cs[1..][i].data
              && FirstSupplied(cs, namespace, key) == Some(cs[1..][i].data[key])
              && forall j :: 0 <= j < i ==> !(cs[1..][j].namespace == namespace && key in cs[1..][j].data);
        assert cs[i + 1] == cs[1..][i];
        assert forall j :: 0 <= j < i + 1 ==> !(cs[j].namespace == namespace && key in cs[j].data);
      }
    }
  }

  lemma MergedField(ext: Fields, c: Contribution, namespace: string, key: string)
    ensures Field(Merged(ext, c.namespace, c.data), namespace, key) ==
            if Field(ext, namespace, key).Some? then Field(ext, namespace, key)
            else if c.namespace == namespace && key in c.data then Some(c.data[key]) else None
  {
  }

  /** Every field keeps the input's value, or takes that of the first provider that supplied it. */
  lemma {:induction false} FirstWriterWins(ext: Fields, cs: seq<Contribution>, namespace: string, key: string)
    ensures Field(MergeAll(ext, cs), namespace, key) ==
            if Field(ext, namespace, key).Some? then Field(ext, namespace, key)
            else FirstSupplied(cs, namespace, key)
    decreases |cs|
  {
    if cs != [] {
      MergedField(ext, cs[0], namespace, key);
      FirstWriterWins(Merged(ext, cs[0].namespace, cs[0].data), cs[1..], namespace, key);
    }
  }

  /** Attaching provenance changes no field of any other namespace and hides that namespace's own fields. */
  lemma AttachedField(ext: Fields, provenance: Data, namespace: string, key: string)
    requires provenance.Leaf?
    ensures Field(Attached(ext, provenance), namespace, key) ==
            if namespace == "provenance" then None else Field(ext, namespace, key)
  {
  }

  /** What the enrichment dictionary holds under a namespace. */
  function Namespace(ext: Fields, namespace: string): Option<Data> {
    var root := SubDict(ext, "enrichment");
    if namespace in root then Some(root[namespace]) else None
  }

  /** Nothing is contributed to the namespace. */
  predicate Silent(cs: seq<Contribution>, namespace: string) {
    forall c :: c in cs ==> c.namespace != namespace || c.data == map[]
  }

  lemma MergedKeepsRest(ext: Fields, c: Contribution, namespace: string)
    ensures Merged(ext, c.namespace, c.data) - {"enrichment"} == ext - {"enrichment"}
    ensures Silent([c], namespace) ==>
              Namespace(Merged(ext, c.namespace, c.data), namespace) == Namespace(ext, namespace)
    ensures c.data == map[] ==> Merged(ext, c.namespace, c.data) == ext
  {
    assert c in [c];
  }

  /**
   Outside the enrichment dictionary, and in namespaces to which nothing was
   contributed, nothing changes or appears; empty contributions change nothing.
   */
  lemma {:induction false} MergeKeepsRest(ext: Fields, cs: seq<Contribution>)
    ensures MergeAll(ext, cs) - {"enrichment"} == ext - {"enrichment"}
    ensures forall ns :: Silent(cs, ns) ==> Namespace(MergeAll(ext, cs), ns) == Namespace(ext, ns)
    ensures (forall c :: c in cs ==> c.data == map[]) ==> MergeAll(ext, cs) == ext
    decreases |cs|
  {
    if cs != [] {
      assert cs[0] in cs && forall c :: c in cs[1..] ==> c in cs;
      MergeKeepsRest(Merged(ext, cs[0].namespace, cs[0].data), cs[1..]);
      MergedKeepsRest(ext, cs[0], "");
      forall ns | Silent(cs, ns) ensures Namespace(MergeAll(ext, cs), ns) == Namespace(ext, ns) {
        MergedKeepsRest(ext, cs[0], ns);
        assert Silent(cs[1..], ns);
      }
    }
  }
}
