/** What storing a cookie header changes: what was pasted is tidied, and taken out of its
    JSON wrapper, without changing the cookies that it stands for. */
module CookieNormalizing {
  import opened GoStrings
  import opened Cookies
  import opened CookieLaws
  import opened Json
  import opened JsonLaws
  import opened JsonFields

  function Tidy(header: string): string {
    Join(Kept(Split(header)))
  }

  // ---- tidying ----

  /** A part that is not kept sets nothing, and trimming one that is changes nothing. */
  lemma KeptPart(part: string)
    ensures var t := TrimSpace(part);
            && PairOf(" " + t) == PairOf(t) == PairOf(part) && TrimSpace(" " + t) == TrimSpace(t) == t
            && ('=' !in t ==> PairOf(part) == None)
  {
    hide TrimSpace;
    var a, b := TrimSplits(part);
    var t := TrimSpace(part);
    TrimNoop(t);
    assert " " + t + "" == " " + t;
    TrimIs(" ", t, "");
  }

  lemma JoinMore(parts: seq<string>, t: string)
    ensures Join(parts + [t]) == if parts == [] then t else Join(parts) + ";" + (" " + t)
  {
    hide Split;
    assert (parts + [t])[..|parts|] == parts;
    if parts != [] {
      assert Join(parts) + ";" + (" " + t) == Join(parts) + "; " + t;
    }
  }

  /** A tidied header has the parts that were kept. */
  lemma {:induction false} TidyParts(parts: seq<string>)
    requires forall part | part in parts :: ';' !in part
    ensures var header := Join(Kept(parts));
            && PairsOf(Split(header)) == PairsOf(parts) && Kept(Split(header)) == Kept(parts)
    ensures forall part | part in Kept(parts) :: Trimmed(part) && '=' in part && ';' !in part
  {
    hide TrimSpace, PairOf, Split, Join, PairsOf, Kept;
    NothingReadsBack();
    JoinOfNothing();
    if parts != [] {
      var n := |parts| - 1;
      var init, part := parts[..n], parts[n];
      TidyParts(init);
      assert part in parts;
      var t := TrimSpace(part);
      var a, b := TrimSplits(part);
      TrimmedPartOf(part);
      KeptPart(part);
      assert init + [part] == parts;
      PairsOfAppend(init, part);
      KeptAppend(init, part);
      if t != "" && '=' in t {
        JoinMore(Kept(init), t);
        if Kept(init) == [] {
          SplitPlain(t);
          PairsOfAppend([], t);
          KeptAppend([], t);
          NothingKept(init);
          assert [] + [t] == [t];
        } else {
          SplitLast(Join(Kept(init)), " " + t);
          PairsOfAppend(Split(Join(Kept(init))), " " + t);
          KeptAppend(Split(Join(Kept(init))), " " + t);
        }
      } else {
        EmptyHasNoEquals(t);
        assert PairsOf(init) + [] == PairsOf(init) && Kept(init) + [] == Kept(init);
      }
    }
  }

  lemma EmptyHasNoEquals(t: string)
    ensures t == "" ==> '=' !in t
  {
  }

  lemma {:induction false} NothingKept(parts: seq<string>)
    requires Kept(parts) == []
    ensures PairsOf(parts) == []
  {
    hide TrimSpace, PairOf;
    if parts != [] {
      NothingKept(parts[..|parts| - 1]);
      KeptPart(parts[|parts| - 1]);
    }
  }

  /** Tidying keeps what a header says, makes every part a trimmed one with an '=', and does
      nothing a second time. */
  lemma TidyKeepsMeaning(header: string)
    ensures Parse(Tidy(header)) == Parse(header) && Tidy(Tidy(header)) == Tidy(header)
    ensures forall part | part in Kept(Split(Tidy(header))) :: Trimmed(part) && '=' in part && ';' !in part
  {
    hide PairsOf, Split, Kept, Join;
    SplitHasNoSemicolon(header);
    TidyParts(Split(header));
  }

  // ---- the JSON wrapper ----

  lemma CookieNames(key: string)
    ensures Names(key, "cookie") <==> Spells(key, "cookie")
  {
    NamesIgnoresCase(key, "cookie");
  }

  lemma {:induction false} WrappedExactly(t: string, fields: seq<Field>)
    requires InText(t, fields) && AreValues(t, fields, MAX_DEPTH - 1)
    ensures WrappedCookie(t, fields).None? <==> exists k | 0 <= k < |fields| :: IsNeither(t, fields[k], "cookie")
    ensures WrappedCookie(t, fields).Some? ==> IsText(t, fields, "cookie", WrappedCookie(t, fields).value)
  {
    hide Spells, Names, IsText, Unquote;
    if fields == [] {
      NoFields(t, "cookie");
    } else {
      var n := |fields| - 1;
      var init, f := fields[..n], fields[n];
      WrappedExactly(t, init);
      CookieNames(f.key);
      assert ScanValue(t, f.start, MAX_DEPTH - 1) == Some(f.end);
      assert forall k | 0 <= k < n :: init[k] == fields[k];
      match WrappedCookie(t, init)
      case None =>
      case Some(before) =>
        IsTextMore(t, fields, "cookie", before);
    }
  }

  lemma BraceIsObject(t: string)
    requires t != "" && t[0] == '{' && Valid(t)
    ensures Members(t).Some?
  {
    hide ScanMembers;
    assert SkipWs(t, 0) == 0;
  }

  /** What a pasted cookie is stored as.  A text that starts with a brace is JSON: it must be
      valid, and all members called "cookie" strings or null, or nothing is stored; of the
      last string among them, as of any other text, what it says is kept. */
  lemma NormalizedExactly(value: string)
    ensures var t, stored := TrimSpace(value), Normalized(value);
            if t == "" || t[0] != '{' then stored == Tidy(t) && Parse(stored) == Parse(t)
            else if !Valid(t) then stored == ""
            else
              && Members(t).Some?
              && var fields := Members(t).value;
              if exists k | 0 <= k < |fields| :: IsNeither(t, fields[k], "cookie") then stored == ""
              else exists cookie :: IsText(t, fields, "cookie", cookie) && stored == Tidy(cookie) && Parse(stored) == Parse(cookie)
  {
    hide TrimSpace, Valid, Members, PairsOf, Split, Kept, Join, WrappedCookie, IsText, IsNeither;
    var t := TrimSpace(value);
    if t == "" || t[0] != '{' {
      TidyKeepsMeaning(t);
    } else if Valid(t) {
      BraceIsObject(t);
      var fields := Members(t).value;
      FieldsAreValues(t);
      WrappedExactly(t, fields);
      if WrappedCookie(t, fields).Some? {
        var cookie := WrappedCookie(t, fields).value;
        TidyKeepsMeaning(cookie);
        BlankIsTidiedAway(cookie);
      }
    }
  }

  lemma BlankIsTidiedAway(cookie: string)
    ensures TrimSpace(cookie) == "" ==> Tidy(cookie) == ""
  {
    hide TrimSpace;
    var a, b := TrimSplits(cookie);
    if TrimSpace(cookie) == "" {
      assert cookie == a + b && AllSpace(a + b);
      BlankHasNoSemicolon(cookie);
      SplitPlain(cookie);
      assert [cookie][..0] == [];
      assert Kept([]) == [];
    }
  }

  lemma BlankHasNoSemicolon(s: string)
    requires AllSpace(s)
    ensures ';' !in s
  {
  }
}
