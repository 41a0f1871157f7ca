/** The project parser's model cache (`m_models`, `LoadModel`): an
    association list from a model file name to the model loaded from it.
    Loading the file (`eng::Model::LoadFromFile` on the project path of the
    name) is outside this model and is given as `loads`. */
module Models {
  import opened Common

  /** One entry: the file name and whether loading it succeeded. */
  datatype CachedModel = CachedModel(path: string, loaded: bool)

  /** The first entry for `path`. */
  function CacheIndex(entries: seq<CachedModel>, path: string): (r: Option<nat>)
    ensures r.Some? ==> r.value < |entries| && entries[r.value].path == path
    ensures r.Some? ==> forall j :: 0 <= j < r.value ==> entries[j].path != path
    ensures r.None? ==> forall j :: 0 <= j < |entries| ==> entries[j].path != path
    decreases |entries|
  {
    if entries == [] then None
    else if entries[0].path == path then Some(0)
    else match CacheIndex(entries[1..], path)
      case None => None
      case Some(k) => Some(k + 1)
  }

  class ModelCache {
    var entries: seq<CachedModel>

    /** At most one entry per file name. */
    ghost predicate Valid()
      reads this
    {
      forall i, j :: 0 <= i < j < |entries| ==> entries[i].path != entries[j].path
    }

    constructor ()
      ensures entries == [] && Valid()
    {
      entries := [];
    }

    /** What `Open` does before parsing: delete every model, empty the list. */
    method Clear()
      modifies this
      ensures entries == [] && Valid()
    {
      entries := [];
    }

    /** `LoadModel(file)`: the stored entry when the name is already in the
        list, whether or not loading it had succeeded; otherwise a new entry
        is appended, then loaded, and the result is null (`None`) when loading
        failed. The entry stays in the list either way. */
    method LoadModel(file: string, loads: string -> bool) returns (r: Option<nat>)
      requires Valid()
      modifies this
      ensures Valid()
      ensures CacheIndex(old(entries), file).Some? ==> entries == old(entries) && r == CacheIndex(old(entries), file)
      ensures CacheIndex(old(entries), file).None? ==>
                entries == old(entries) + [CachedModel(file, loads(file))]
                && r == (if loads(file) then Some(|old(entries)|) else None)
      ensures r.Some? ==> r.value < |entries| && entries[r.value].path == file
    {
      var i := 0;
      while i < |entries|
        invariant 0 <= i <= |entries|
        invariant forall j :: 0 <= j < i ==> entries[j].path != file
      {
        if entries[i].path == file {
          assert CacheIndex(entries, file) == Some(i);
          return Some(i);
        }
        i := i + 1;
      }
      var loaded := loads(file);
      entries := entries + [CachedModel(file, loaded)];
      if !loaded {
        return None;
      }
      return Some(|entries| - 1);
    }
  }

  /** The list after a run of loads: each new name adds one entry, a name
      already present adds nothing. */
  function Loaded(entries: seq<CachedModel>, files: seq<string>, loads: string -> bool): seq<CachedModel>
    decreases |files|
  {
    if files == [] then entries
    else
      var before := Loaded(entries, files[..|files| - 1], loads);
      var f := files[|files| - 1];
      if CacheIndex(before, f).Some? then before else before + [CachedModel(f, loads(f))]
  }

  /** However many loads run, the list holds at most one entry per name, and
      exactly the names asked for. */
  lemma {:induction false} LoadedDistinct(entries: seq<CachedModel>, files: seq<string>, loads: string -> bool)
    requires forall i, j :: 0 <= i < j < |entries| ==> entries[i].path != entries[j].path
    ensures var r := Loaded(entries, files, loads);
            forall i, j :: 0 <= i < j < |r| ==> r[i].path != r[j].path
    ensures var r := Loaded(entries, files, loads);
            forall f :: f in files ==> CacheIndex(r, f).Some?
    decreases |files|
  {
    if files != [] {
      var init := files[..|files| - 1];
      LoadedDistinct(entries, init, loads);
      var before := Loaded(entries, init, loads);
      var f := files[|files| - 1];
      var r := Loaded(entries, files, loads);
      if CacheIndex(before, f).Some? {
        assert r == before;
      } else {
        assert r == before + [CachedModel(f, loads(f))];
        assert forall i :: 0 <= i < |before| ==> r[i] == before[i] && before[i].path != f;
        assert forall i, j :: 0 <= i < j < |r| ==> r[i].path != r[j].path by {
          forall i, j | 0 <= i < j < |r| ensures r[i].path != r[j].path {
            if j < |before| {
              assert r[i] == before[i] && r[j] == before[j];
            }
          }
        }
      }
      forall g | g in files ensures CacheIndex(r, g).Some? {
        if g in init {
          var k := CacheIndex(before, g).value;
          assert r[k] == before[k];
        } else {
          assert g == f;
          if CacheIndex(before, f).None? {
            assert r[|before|].path == f;
          }
        }
      }
    } else {
      assert Loaded(entries, files, loads) == entries;
    }
  }
}
