/** The maintenance script that points the "book a consultation" buttons of
    HERO and CTA_BAND sections at the `/consultar` page. */
module UpdateConsultaLinks {
  import opened Json
  import opened Web
  import opened Sections
  import opened SectionStore

  const Hero := "HERO"
  const CtaBand := "CTA_BAND"

  /** The button every matching call to action becomes. */
  const Consultar: Json := JObj(map["text" := JStr("Consultar"), "link" := JStr("/consultar")])

  /** A call to action the script rewrites: the old label or the old anchor. */
  predicate OldCta(cta: Option<Json>)
  {
    IsString(Field(cta, "text"), "Agendar Consulta") || IsString(Field(cta, "link"), "#contacto")
  }

  /** The `TypeError` a property read on a `null` content throws. */
  function NullRead(key: string): Thrown
  {
    Thrown(None, "Cannot read properties of null (reading '" + key + "')")
  }

  /** The fields a rule replaces in a section's content. */
  function Changes(sectionType: string, f: map<string, Json>): map<string, Json>
  {
    var primary := Get(f, "primaryCta");
    var secondary := Get(f, "secondaryCta");
    var cta := Get(f, "cta");
    if sectionType == Hero then
      (if Present(primary) && OldCta(primary) then map["primaryCta" := Consultar] else map[]) +
      (if IsString(Field(secondary, "link"), "#contacto")
       then map["secondaryCta" := JObj(secondary.value.fields["link" := JStr("/consultar")])]
       else map[])
    else if sectionType == CtaBand then
      (if Present(cta) && OldCta(cta) then map["cta" := Consultar] else map[])
    else map[]
  }

  /** What the loop body does to one section: throw, leave it alone (`None`),
      or write the new content. */
  function Rewritten(sectionType: string, content: Json): Outcome<Option<Json>>
  {
    if sectionType != Hero && sectionType != CtaBand then Done(None)
    else if content.JNull? then Threw(NullRead(if sectionType == Hero then "primaryCta" else "cta"))
    else if !content.JObj? || Changes(sectionType, content.fields) == map[] then Done(None)
    else Done(Some(JObj(content.fields + Changes(sectionType, content.fields))))
  }

  predicate Throws(s: Section)
  {
    Rewritten(s.sectionType, s.content).Threw?
  }

  predicate Writes(s: Section)
  {
    Rewritten(s.sectionType, s.content).Done? && Rewritten(s.sectionType, s.content).value.Some?
  }

  function Apply(s: Section): Section
  {
    if Writes(s) then s.(content := Rewritten(s.sectionType, s.content).value.value) else s
  }

  /** The table once the first `n` sections went through the loop body. */
  function Applied(ss: seq<Section>, n: nat): (r: seq<Section>)
    ensures |r| == |ss|
  {
    seq(|ss|, j requires 0 <= j < |ss| => if j < n then Apply(ss[j]) else ss[j])
  }

  /** Where the loop stops: the first section whose body throws, or the end. */
  function FirstThrow(ss: seq<Section>): (r: nat)
    ensures r <= |ss|
    ensures forall j :: 0 <= j < r ==> !Throws(ss[j])
    ensures r < |ss| ==> Throws(ss[r])
  {
    if ss == [] then 0 else if Throws(ss[0]) then 0 else 1 + FirstThrow(ss[1..])
  }

  /** The ids logged as updated among the first `n` sections. */
  function UpdatedIds(ss: seq<Section>, n: nat): seq<string>
    requires n <= |ss|
  {
    if n == 0 then [] else UpdatedIds(ss, n - 1) + (if Writes(ss[n - 1]) then [ss[n - 1].id] else [])
  }

  // ---------------------------------------------------------------- rules

  /** Only HERO and CTA_BAND sections are touched. */
  lemma OtherTypesUntouched(sectionType: string, content: Json)
    requires sectionType != Hero && sectionType != CtaBand
    ensures Rewritten(sectionType, content) == Done(None)
  {
  }

  /** The spread copy keeps every field, and only the call-to-action fields change. */
  lemma FieldsPreserved(sectionType: string, content: Json, c: Json)
    requires Rewritten(sectionType, content) == Done(Some(c))
    ensures content.JObj? && c.JObj? && c.fields.Keys == content.fields.Keys
    ensures forall k :: k in content.fields && k !in {"primaryCta", "secondaryCta", "cta"} ==>
      c.fields[k] == content.fields[k]
  {
  }

  /** A write always changes the content: the script never writes a section back unchanged. */
  lemma WrittenOnlyWhenChanged(sectionType: string, content: Json, c: Json)
    requires Rewritten(sectionType, content) == Done(Some(c))
    ensures c != content
  {
    var ch := Changes(sectionType, content.fields);
    var k :| k in ch;
    assert c.fields[k] == ch[k];
    if k == "primaryCta" || k == "cta" {
      assert IsString(Field(Some(ch[k]), "link"), "/consultar");
    } else {
      assert IsString(Field(Some(ch[k]), "link"), "/consultar");
    }
  }

  /** The rewrite rules as the script states them: a matching primary or band
      call to action becomes the `/consultar` button, a secondary one keeps its
      fields and gets the new link. */
  lemma RulesAsStated(sectionType: string, content: map<string, Json>, c: Json)
    requires Rewritten(sectionType, JObj(content)) == Done(Some(c))
    ensures var p := Get(content, "primaryCta");
      sectionType == Hero && Present(p) && OldCta(p) ==> c.fields["primaryCta"] == Consultar
    ensures var s := Get(content, "secondaryCta");
      sectionType == Hero && IsString(Field(s, "link"), "#contacto") ==>
        c.fields["secondaryCta"] == JObj(s.value.fields["link" := JStr("/consultar")])
    ensures var t := Get(content, "cta");
      sectionType == CtaBand && Present(t) && OldCta(t) ==> c.fields["cta"] == Consultar
  {
  }

  /** The script's three `if` conditions: a HERO primary button with the old label or
      anchor, a HERO secondary button with the old anchor, a CTA_BAND button with the
      old label or anchor. */
  predicate RuleMatches(sectionType: string, content: map<string, Json>)
  {
    var p, s, t := Get(content, "primaryCta"), Get(content, "secondaryCta"), Get(content, "cta");
    (sectionType == Hero && ((Present(p) && OldCta(p)) || IsString(Field(s, "link"), "#contacto"))) ||
    (sectionType == CtaBand && Present(t) && OldCta(t))
  }

  /** The converse of the rules: an object content is written exactly when a rule
      matches it, and each matching button is replaced as the script states. */
  lemma RulesFire(sectionType: string, content: map<string, Json>)
    ensures var r := Rewritten(sectionType, JObj(content));
      r.Done? && (r.value.Some? <==> RuleMatches(sectionType, content))
    ensures var r, p := Rewritten(sectionType, JObj(content)), Get(content, "primaryCta");
      sectionType == Hero && Present(p) && OldCta(p) ==>
        r.Done? && r.value.Some? && r.value.value.JObj? && "primaryCta" in r.value.value.fields &&
        r.value.value.fields["primaryCta"] == Consultar
    ensures var r, s := Rewritten(sectionType, JObj(content)), Get(content, "secondaryCta");
      sectionType == Hero && IsString(Field(s, "link"), "#contacto") ==>
        r.Done? && r.value.Some? && r.value.value.JObj? && "secondaryCta" in r.value.value.fields &&
        r.value.value.fields["secondaryCta"] == JObj(s.value.fields["link" := JStr("/consultar")])
    ensures var r, t := Rewritten(sectionType, JObj(content)), Get(content, "cta");
      sectionType == CtaBand && Present(t) && OldCta(t) ==>
        r.Done? && r.value.Some? && r.value.value.JObj? && "cta" in r.value.value.fields &&
        r.value.value.fields["cta"] == Consultar
  {
    var ch := Changes(sectionType, content);
    if sectionType == Hero {
      var p, s := Get(content, "primaryCta"), Get(content, "secondaryCta");
      if Present(p) && OldCta(p) {
        assert "primaryCta" in ch;
      }
      if IsString(Field(s, "link"), "#contacto") {
        assert "secondaryCta" in ch;
      }
    } else if sectionType == CtaBand {
      if Present(Get(content, "cta")) && OldCta(Get(content, "cta")) {
        assert "cta" in ch;
      }
    }
  }

  /** Rewritten content matches no rule: a second pass writes nothing. */
  lemma RewriteIdempotent(sectionType: string, content: Json, c: Json)
    requires Rewritten(sectionType, content) == Done(Some(c))
    ensures Rewritten(sectionType, c) == Done(None)
  {
    var f := content.fields;
    var g := c.fields;
    assert g == f + Changes(sectionType, f);
    assert !(Present(Some(Consultar)) && OldCta(Some(Consultar)));
    if sectionType == Hero {
      var s := Get(f, "secondaryCta");
      if IsString(Field(s, "link"), "#contacto") {
        assert Get(g, "secondaryCta") == Some(JObj(s.value.fields["link" := JStr("/consultar")]));
      } else {
        assert Get(g, "secondaryCta") == s;
      }
      if Present(Get(f, "primaryCta")) && OldCta(Get(f, "primaryCta")) {
        assert Get(g, "primaryCta") == Some(Consultar);
      } else {
        assert Get(g, "primaryCta") == Get(f, "primaryCta");
      }
    } else {
      assert Get(g, "cta") == Some(Consultar);
    }
  }

  lemma ApplyIdempotent(s: Section)
    requires !Throws(s)
    ensures !Throws(Apply(s)) && Apply(Apply(s)) == Apply(s)
  {
    if Writes(s) {
      RewriteIdempotent(s.sectionType, s.content, Rewritten(s.sectionType, s.content).value.value);
    }
  }

  /** Running the script twice leaves the table as running it once: the second
      run stops at the same section and writes nothing. */
  lemma {:induction false} PassIdempotent(ss: seq<Section>)
    ensures var n := FirstThrow(ss);
      FirstThrow(Applied(ss, n)) == n && Applied(Applied(ss, n), n) == Applied(ss, n)
  {
    var n := FirstThrow(ss);
    var r := Applied(ss, n);
    forall j | 0 <= j < n ensures !Throws(r[j]) && Apply(r[j]) == r[j] {
      ApplyIdempotent(ss[j]);
    }
    if n < |ss| {
      assert r[n] == ss[n];
    }
    FirstThrowIs(r, n);
  }

  /** `n` is where the loop stops on `ss` when the sections before it do not
      throw and the one at it does (or it is the end). */
  lemma FirstThrowIs(ss: seq<Section>, n: nat)
    requires n <= |ss|
    requires forall j :: 0 <= j < n ==> !Throws(ss[j])
    requires n < |ss| ==> Throws(ss[n])
    ensures FirstThrow(ss) == n
  {
  }

  /** The loop, having run up to `i` without a throw, stops at `i` when the
      section there throws or the table ends. */
  lemma StopsAt(ss: seq<Section>, i: nat)
    requires i <= FirstThrow(ss) && i <= |ss|
    requires i < |ss| ==> Throws(ss[i])
    ensures FirstThrow(ss) == i
  {
  }

  /** A section before the stop that does not throw moves the stop no earlier than the next one. */
  lemma PassesAt(ss: seq<Section>, i: nat)
    requires i <= FirstThrow(ss) && i < |ss| && !Throws(ss[i])
    ensures i + 1 <= FirstThrow(ss)
  {
  }

  // ---------------------------------------------------------------- the script

  lemma UpdateStep(ss: seq<Section>, i: nat, c: Json)
    requires UniqueIds(ss) && i < |ss| && Apply(ss[i]) == ss[i].(content := c)
    ensures WithContent(Applied(ss, i), ss[i].id, c) == Applied(ss, i + 1)
  {
    var a := Applied(ss, i);
    forall j | 0 <= j < |ss| ensures WithContent(a, ss[i].id, c)[j] == Applied(ss, i + 1)[j] {
      if j != i {
        assert a[j].id == ss[j].id;
      }
    }
  }

  lemma SkipStep(ss: seq<Section>, i: nat)
    requires i < |ss| && !Writes(ss[i])
    ensures Applied(ss, i + 1) == Applied(ss, i)
  {
    forall j | 0 <= j < |ss| ensures Applied(ss, i + 1)[j] == Applied(ss, i)[j] {
    }
  }

  /** The loop body on one section: the spread copy, the `updated` flag and
      the rules in source order. */
  method RewriteSection(section: Section) returns (failure: Option<Thrown>, updated: bool, newContent: map<string, Json>)
    ensures failure.Some? <==> Throws(section)
    ensures failure.Some? ==> failure.value == Rewritten(section.sectionType, section.content).error
    ensures failure.None? ==> (updated <==> Writes(section))
    ensures failure.None? && updated ==> JObj(newContent) == Rewritten(section.sectionType, section.content).value.value
  {
    var content := section.content;
    failure := None;
    updated := false;
    // `{ ...content }`; it is written back only when a rule fired, which needs an object
    newContent := if content.JObj? then content.fields else map[];
    ghost var changes: map<string, Json> := map[];
    ghost var base := newContent;
    assert newContent == base + changes;
    if section.sectionType == Hero {
      if content.JNull? {
        failure := Some(NullRead("primaryCta"));
        return;
      }
      var primary := Field(Some(content), "primaryCta");
      if Present(primary) {
        if OldCta(primary) {
          MergeUpdate(base, changes, "primaryCta", Consultar);
          newContent := newContent["primaryCta" := Consultar];
          changes := changes["primaryCta" := Consultar];
          updated := true;
        }
      }
      var secondary := Field(Some(content), "secondaryCta");
      if IsString(Field(secondary, "link"), "#contacto") {
        MergeUpdate(base, changes, "secondaryCta", JObj(secondary.value.fields["link" := JStr("/consultar")]));
        newContent := newContent["secondaryCta" := JObj(secondary.value.fields["link" := JStr("/consultar")])];
        changes := changes["secondaryCta" := JObj(secondary.value.fields["link" := JStr("/consultar")])];
        updated := true;
      }
    }
    if section.sectionType == CtaBand {
      if content.JNull? {
        failure := Some(NullRead("cta"));
        return;
      }
      var cta := Field(Some(content), "cta");
      if Present(cta) {
        if OldCta(cta) {
          MergeUpdate(base, changes, "cta", Consultar);
          newContent := newContent["cta" := Consultar];
          changes := changes["cta" := Consultar];
          updated := true;
        }
      }
    }
    assert updated <==> changes != map[] by {
      if updated {
        assert "primaryCta" in changes || "secondaryCta" in changes || "cta" in changes;
      }
    }
    assert content.JObj? ==> changes == Changes(section.sectionType, content.fields);
    assert newContent == base + changes;
  }

  /** Writing one more field into the spread copy is merging one more change. */
  lemma MergeUpdate(base: map<string, Json>, changes: map<string, Json>, k: string, v: Json)
    ensures (base + changes)[k := v] == base + changes[k := v]
  {
  }

  method UpdateConsultaLinks(store: Store) returns (failure: Option<Thrown>, updatedIds: seq<string>)
    requires store.Valid()
    modifies store
    ensures store.Valid() && store.pages == old(store.pages)
    ensures var n := FirstThrow(old(store.sections));
      store.sections == Applied(old(store.sections), n) &&
      updatedIds == UpdatedIds(old(store.sections), n) &&
      failure == (if n < |old(store.sections)| then Some(Rewritten(old(store.sections)[n].sectionType,
                                                                   old(store.sections)[n].content).error)
                  else None)
  {
    var sections := store.sections;
    failure := None;
    updatedIds := [];
    assert UniqueIds(sections);
    var i := 0;
    while i < |sections|
      invariant 0 <= i <= |sections|
      invariant store.Valid() && store.pages == old(store.pages)
      invariant i <= FirstThrow(sections)
      invariant store.sections == Applied(sections, i)
      invariant updatedIds == UpdatedIds(sections, i)
    {
      var sectionFailure, updated := RewriteAt(store, sections, i);
      if sectionFailure.Some? {
        StopsAt(sections, i);
        failure := sectionFailure;
        return;
      }
      PassesAt(sections, i);
      if updated {
        updatedIds := updatedIds + [sections[i].id];
      }
      i := i + 1;
    }
    StopsAt(sections, i);
  }

  /** One pass of the loop body on the `i`-th section of the table as it was read:
      either it throws and nothing is written, or the section is rewritten (when
      its content changes) and the table is the one after `i + 1` steps. */
  method RewriteAt(store: Store, sections: seq<Section>, i: nat) returns (failure: Option<Thrown>, updated: bool)
    requires store.Valid() && UniqueIds(sections) && i < |sections| && store.sections == Applied(sections, i)
    modifies store
    ensures store.Valid() && store.pages == old(store.pages)
    ensures failure.Some? ==> Throws(sections[i]) && store.sections == old(store.sections) &&
                              failure.value == Rewritten(sections[i].sectionType, sections[i].content).error
    ensures failure.None? ==> !Throws(sections[i]) && store.sections == Applied(sections, i + 1) &&
                              (updated <==> Writes(sections[i]))
  {
    var section := sections[i];
    var newContent;
    failure, updated, newContent := RewriteSection(section);
    if failure.Some? {
      return;
    }
    if updated {
      assert section.id in IdsOf(store.sections) by { assert store.sections[i] == section; }
      store.Update(section.id, JObj(newContent));
      UpdateStep(sections, i, JObj(newContent));
    } else {
      SkipStep(sections, i);
    }
  }
}
