/**
 * Picking tools by name from the list of available tools. Loading that
 * list from tool servers is left out; it is given.
 */
module Tools {
  import opened Models

  /** A tool description; only its name takes part in the selection. */
  datatype Tool = Tool(name: string, description: string)

  /** The first available tool called `name`, if any. */
  function FirstNamed(available: seq<Tool>, name: string): (r: Option<Tool>)
    ensures r.None? <==> forall k :: 0 <= k < |available| ==> available[k].name != name
    ensures r.Some? ==> r.value in available && r.value.name == name
  {
    if available == [] then None
    else if available[0].name == name then Some(available[0])
    else FirstNamed(available[1..], name)
  }

  /** The found tool is an available tool with that name, and no earlier tool has it. */
  lemma {:induction false} FirstNamedIsFirst(available: seq<Tool>, name: string)
    requires FirstNamed(available, name).Some?
    ensures exists i :: (0 <= i < |available| && available[i] == FirstNamed(available, name).value
                         && forall j :: 0 <= j < i ==> available[j].name != name)
  {
    if available[0].name != name {
      FirstNamedIsFirst(available[1..], name);
      var i :| 0 <= i < |available[1..]| && available[1..][i] == FirstNamed(available[1..], name).value
        && forall j :: 0 <= j < i ==> available[1..][j].name != name;
      assert available[i + 1] == available[1..][i];
      assert forall j :: 1 <= j < i + 1 ==> available[j] == available[1..][j - 1];
    }
  }

  /** For each requested name in order, the first tool with that name; unknown names are skipped. */
  function Selected(available: seq<Tool>, names: seq<string>): (r: seq<Tool>)
    ensures |r| <= |names|
  {
    if names == [] then []
    else
      var n := |names| - 1;
      Selected(available, names[..n])
      + (match FirstNamed(available, names[n]) case Some(t) => [t] case None => [])
  }

  /** Selecting for two runs of names is selecting for each, one after the other: the order follows the names. */
  lemma {:induction false} SelectedConcat(available: seq<Tool>, a: seq<string>, b: seq<string>)
    ensures Selected(available, a + b) == Selected(available, a) + Selected(available, b)
    decreases |b|
  {
    if b == [] {
      assert a + b == a;
    } else {
      var n := |b| - 1;
      assert (a + b)[..|a + b| - 1] == a + b[..n];
      assert (a + b)[|a + b| - 1] == b[n];
      SelectedConcat(available, a, b[..n]);
    }
  }

  /**
   * Each selected tool is the first available tool of its name, and that
   * name was requested; conversely every requested name that some tool has
   * contributes its first tool.
   */
  lemma {:induction false} SelectedMembers(available: seq<Tool>, names: seq<string>)
    ensures forall t :: t in Selected(available, names) ==>
      t.name in names && FirstNamed(available, t.name) == Some(t)
    ensures forall name :: name in names && FirstNamed(available, name).Some? ==>
      FirstNamed(available, name).value in Selected(available, names)
  {
    if names != [] {
      var n := |names| - 1;
      SelectedMembers(available, names[..n]);
      assert names == names[..n] + [names[n]];
      assert forall x :: x in names[..n] ==> x in names;
    }
  }

  /** When every name is known, there is one tool per name, in the names' order. */
  lemma {:induction false} SelectedAllKnown(available: seq<Tool>, names: seq<string>)
    requires forall k :: 0 <= k < |names| ==> FirstNamed(available, names[k]).Some?
    ensures |Selected(available, names)| == |names|
    ensures forall k :: 0 <= k < |names| ==> Selected(available, names)[k] == FirstNamed(available, names[k]).value
  {
    if names != [] {
      var n := |names| - 1;
      SelectedAllKnown(available, names[..n]);
      var before := Selected(available, names[..n]);
      assert Selected(available, names) == before + [FirstNamed(available, names[n]).value];
      forall k | 0 <= k < n ensures Selected(available, names)[k] == FirstNamed(available, names[k]).value {
        assert names[..n][k] == names[k];
      }
    }
  }

  /**
   * `get_tools_by_names_async` with the available tools given: an empty
   * request returns them all, otherwise the selection by name.
   */
  method GetToolsByNames(names: seq<string>, available: seq<Tool>) returns (filtered: seq<Tool>)
    ensures names == [] ==> filtered == available
    ensures names != [] ==> filtered == Selected(available, names)
    ensures names != [] ==> |filtered| <= |names| && forall t :: t in filtered ==> t.name in names
  {
    if names == [] {
      return available;
    }
    filtered := [];
    var i := 0;
    while i < |names|
      invariant 0 <= i <= |names|
      invariant filtered == Selected(available, names[..i])
    {
      assert names[..i + 1][..i] == names[..i];
      var tool := FirstNamed(available, names[i]);
      if tool.Some? {
        filtered := filtered + [tool.value];
      }
      i := i + 1;
    }
    assert names[..i] == names;
    SelectedMembers(available, names);
  }
}
