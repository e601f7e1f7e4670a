/** Which members of a JSON object land in a struct field, whatever order they stand in,
    however they are capitalised and whatever else the object contains. */
module JsonFields {
  import opened GoStrings
  import opened Json
  import opened JsonLaws

  /** The key is the field name, written in any case. */
  predicate Spells(key: string, field: string) {
    |key| == |field| && forall i | 0 <= i < |key| :: SpelledAs(key[i], field[i])
  }

  predicate SpelledAs(c: char, letter: char) {
    || c == letter
    || ('a' <= letter <= 'z' && c == letter - 'a' + 'A')
    || (c == '\U{17F}' && letter == 's') || (c == '\U{212A}' && letter == 'k')
  }

  lemma NamesIgnoresCase(key: string, field: string)
    requires forall c | c in field :: 'a' <= c <= 'z'
    ensures Names(key, field) <==> Spells(key, field)
  {
    if |key| == |field| {
      forall i | 0 <= i < |key| ensures FoldChar(key[i]) == FoldChar(field[i]) <==> SpelledAs(key[i], field[i]) {
        assert field[i] in field;
      }
    }
  }

  // ---- the members of an object ----

  /** Every member of the object has a value, within the depth left. */
  predicate AreValues(t: string, fields: seq<Field>, depth: nat) {
    forall k | 0 <= k < |fields| ::
      fields[k].start < fields[k].end <= |t| && ScanValue(t, fields[k].start, depth) == Some(fields[k].end)
  }

  lemma {:induction false} MembersAreValues(t: string, i: nat, depth: nat)
    requires i <= |t| && ScanMembers(t, i, depth).Some?
    ensures AreValues(t, ScanMembers(t, i, depth).value.fields, depth)
    decreases |t| - i
  {
    hide SkipWs, Unquote, ScanValue, ScanMembers;
    var p := FirstMember(t, i, depth);
    MembersAt(t, i, depth, p);
    if t[p.mark] == ',' {
      MembersAreValues(t, SkipWs(t, p.mark + 1), depth);
    }
  }

  lemma FieldsAreValues(t: string)
    requires Valid(t) && Members(t).Some?
    ensures AreValues(t, Members(t).value, MAX_DEPTH - 1)
  {
    hide SkipWs, ScanValue, ScanMembers;
    var i := SkipWs(t, 0);
    var k := SkipWs(t, i + 1);
    if !(k < |t| && t[k] == '}') {
      MembersAreValues(t, k, MAX_DEPTH - 1);
    }
  }

  /** The field has the name, and a string. */
  predicate IsString(t: string, f: Field, field: string)
    requires f.start < |t|
  {
    Spells(f.key, field) && t[f.start] == '"'
  }

  /** The field has the name, and neither a string nor null. */
  predicate IsNeither(t: string, f: Field, field: string)
    requires f.start < |t|
  {
    Spells(f.key, field) && t[f.start] != '"' && t[f.start] != 'n'
  }

  /** The string that the value of a field stands for, if it is one. */
  function StringOf(t: string, f: Field): string
    requires f.start < |t|
  {
    match Unquote(t, f.start + 1)
    case None => ""
    case Some(x) => x.value
  }

  /** What a string field is left with: the last string among the members that have its name,
      and otherwise nothing. */
  predicate IsText(t: string, fields: seq<Field>, field: string, text: string)
    requires InText(t, fields)
  {
    || (text == "" && forall k | 0 <= k < |fields| :: !IsString(t, fields[k], field))
    || exists k | 0 <= k < |fields| ::
         && IsString(t, fields[k], field) && text == StringOf(t, fields[k])
         && forall i | k < i < |fields| :: !IsString(t, fields[i], field)
  }

  /** What a raw field is left with: the text of the last member that has its name. */
  predicate IsRaw(t: string, fields: seq<Field>, field: string, text: string)
    requires InText(t, fields)
  {
    || (text == "" && forall k | 0 <= k < |fields| :: !Spells(fields[k].key, field))
    || exists k | 0 <= k < |fields| ::
         && Spells(fields[k].key, field) && text == t[fields[k].start..fields[k].end]
         && forall i | k < i < |fields| :: !Spells(fields[i].key, field)
  }

  lemma IsTextMore(t: string, fields: seq<Field>, field: string, text: string)
    requires fields != [] && InText(t, fields)
    requires InText(t, fields[..|fields| - 1]) && IsText(t, fields[..|fields| - 1], field, text)
    ensures var f := fields[|fields| - 1];
            IsText(t, fields, field, if IsString(t, f, field) then StringOf(t, f) else text)
  {
    hide Spells, StringOf;
    var n := |fields| - 1;
    assert forall k | 0 <= k < n :: fields[..n][k] == fields[k];
  }

  lemma IsRawMore(t: string, fields: seq<Field>, field: string, text: string)
    requires fields != [] && InText(t, fields)
    requires InText(t, fields[..|fields| - 1]) && IsRaw(t, fields[..|fields| - 1], field, text)
    ensures var f := fields[|fields| - 1];
            IsRaw(t, fields, field, if Spells(f.key, field) then t[f.start..f.end] else text)
  {
    hide Spells;
    var n := |fields| - 1;
    assert forall k | 0 <= k < n :: fields[..n][k] == fields[k];
  }

  lemma NoFields(t: string, field: string)
    ensures IsText(t, [], field, "") && IsRaw(t, [], field, "")
  {
  }
}
