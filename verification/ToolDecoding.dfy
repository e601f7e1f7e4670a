/** What the body of a tool block is read as, whatever order its members stand in, however
    their names are capitalised and whatever else the object contains. */
module ToolDecoding {
  import opened GoStrings
  import opened ToolGate
  import opened ToolBlocks
  import opened ToolCalls
  import opened Json
  import opened JsonLaws
  import opened JsonFields

  lemma NameOrArguments(key: string)
    ensures Names(key, "name") <==> Spells(key, "name")
    ensures Names(key, "arguments") <==> Spells(key, "arguments")
    ensures !(Spells(key, "name") && Spells(key, "arguments"))
  {
    NamesIgnoresCase(key, "name");
    NamesIgnoresCase(key, "arguments");
    assert |"name"| == 4 && |"arguments"| == 9;
  }

  lemma StringIsText(t: string, f: Field)
    requires f.start < |t| && t[f.start] == '"' && ScanValue(t, f.start, MAX_DEPTH - 1) == Some(f.end)
    ensures Unquote(t, f.start + 1).Some?
  {
    hide Unquote;
  }

  lemma {:induction false} AssignedExactly(t: string, fields: seq<Field>)
    requires InText(t, fields) && AreValues(t, fields, MAX_DEPTH - 1)
    ensures Assigned(t, fields).None? <==> exists k | 0 <= k < |fields| :: IsNeither(t, fields[k], "name")
    ensures Assigned(t, fields).Some? ==> var c := Assigned(t, fields).value;
              IsText(t, fields, "name", c.name) && IsRaw(t, fields, "arguments", c.arguments)
  {
    hide Spells, Names, IsText, IsRaw, Unquote, ScanValue;
    if fields == [] {
      NoFields(t, "name");
      NoFields(t, "arguments");
    } else {
      var n := |fields| - 1;
      var init, f := fields[..n], fields[n];
      AssignedExactly(t, init);
      NameOrArguments(f.key);
      if t[f.start] == '"' {
        StringIsText(t, f);
      }
      assert forall k | 0 <= k < n :: init[k] == fields[k];
      match Assigned(t, init)
      case None =>
      case Some(c) =>
        IsTextMore(t, fields, "name", c.name);
        IsRawMore(t, fields, "arguments", c.arguments);
    }
  }

  // ---- a whole block ----

  lemma ArgumentsAreValid(t: string, f: Field)
    requires f.start < f.end <= |t| && ScanValue(t, f.start, MAX_DEPTH - 1) == Some(f.end)
    ensures var a := t[f.start..f.end];
            Valid(a) && TrimSpace(a) == a && a != ""
  {
    hide ScanValue, TrimSpace;
    var a := t[f.start..f.end];
    ValueCalm(t, f.start, MAX_DEPTH - 1);
    TrimNoop(a);
    DeeperValue(t, f.start, MAX_DEPTH - 1);
    ShiftValue(t, a, 0 - f.start, f.start, f.end, MAX_DEPTH);
    SkipWsTo(a, 0, 0);
  }

  /** What the body of a block stands for: nothing, unless it is an object whose members
      called "name" are all strings or null, and the last string among them is not empty;
      otherwise that name, with the text of the last member called "arguments", or an empty
      object if there is none or it is null. */
  lemma CallExactly(body: string)
    ensures var t := TrimSpace(body);
            match CallOf(body)
            case None =>
              || !Valid(t) || Members(t).None?
              || (exists k | 0 <= k < |Members(t).value| :: IsNeither(t, Members(t).value[k], "name"))
              || IsText(t, Members(t).value, "name", "")
            case Some(c) =>
              && Valid(t) && Members(t).Some? && c.name != "" && IsText(t, Members(t).value, "name", c.name)
              && (forall k | 0 <= k < |Members(t).value| :: !IsNeither(t, Members(t).value[k], "name"))
              && Valid(c.arguments)
              && (IsRaw(t, Members(t).value, "arguments", c.arguments)
                  || (c.arguments == "{}"
                      && (IsRaw(t, Members(t).value, "arguments", "") || IsRaw(t, Members(t).value, "arguments", "null"))))
              && c.arguments != "null" && c.arguments != ""
  {
    hide Valid, Members, TrimSpace, Assigned, IsNeither, IsText;
    var t := TrimSpace(body);
    if Valid(t) && Members(t).Some? {
      FieldsAreValues(t);
      AssignedExactly(t, Members(t).value);
      match Assigned(t, Members(t).value)
      case None =>
      case Some(c) => NormalOfFields(t, Members(t).value, c.arguments);
    }
  }

  lemma NormalOfFields(t: string, fields: seq<Field>, arguments: string)
    requires InText(t, fields) && AreValues(t, fields, MAX_DEPTH - 1) && IsRaw(t, fields, "arguments", arguments)
    ensures Valid(Normal(arguments))
    ensures Normal(arguments) == if arguments == "" || arguments == "null" then "{}" else arguments
  {
    hide Valid, ScanValue, TrimSpace, Spells;
    EmptyIsValid();
    TrimNoop("");
    if arguments != "" {
      var k :| 0 <= k < |fields| && arguments == t[fields[k].start..fields[k].end];
      ArgumentsAreValid(t, fields[k]);
    }
  }

  lemma EmptyIsValid()
    ensures Valid("{}")
  {
    assert SkipWs("{}", 0) == 0 && SkipWs("{}", 1) == 1 && SkipWs("{}", 2) == 2;
  }

  // ---- a whole reply ----

  /** The calls are those of the blocks listed, which are all that stand for one. */
  ghost predicate Listed(matches: seq<Match>, calls: seq<ToolCall>, blocks: seq<nat>) {
    && |blocks| == |calls|
    && (forall i | 0 <= i < |blocks| :: blocks[i] < |matches| && CallOf(matches[blocks[i]].body) == Some(calls[i]))
    && (forall i, j | 0 <= i < j < |blocks| :: blocks[i] < blocks[j])
    && (forall k | 0 <= k < |matches| && CallOf(matches[k].body).Some? :: k in blocks)
  }

  lemma ListedMore(matches: seq<Match>, m: Match, calls: seq<ToolCall>, blocks: seq<nat>)
    requires Listed(matches, calls, blocks)
    ensures CallOf(m.body).None? ==> Listed(matches + [m], calls, blocks)
    ensures CallOf(m.body).Some? ==> Listed(matches + [m], calls + [CallOf(m.body).value], blocks + [|matches|])
  {
    hide CallOf;
    var n := |matches|;
    assert forall k | 0 <= k < n :: (matches + [m])[k] == matches[k];
    assert (blocks + [n])[|blocks|] == n;
    assert forall k | k in blocks :: k in blocks + [n];
  }

  /** Every block that stands for a call gives that call, in the order of the blocks; one
      that does not hides no other. */
  lemma {:induction false} CallsAreListed(matches: seq<Match>) returns (blocks: seq<nat>)
    ensures Listed(matches, CallsOf(matches), blocks)
  {
    hide CallOf, Listed;
    blocks := [];
    if matches == [] {
      NothingListed();
    } else {
      var n := |matches| - 1;
      blocks := CallsAreListed(matches[..n]);
      ListedMore(matches[..n], matches[n], CallsOf(matches[..n]), blocks);
      assert matches[..n] + [matches[n]] == matches;
      if CallOf(matches[n].body).Some? {
        blocks := blocks + [n];
      } else {
        assert CallsOf(matches[..n]) + [] == CallsOf(matches[..n]);
      }
    }
  }

  lemma NothingListed()
    ensures Listed([], [], [])
  {
  }
}
