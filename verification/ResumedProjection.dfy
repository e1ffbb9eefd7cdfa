/** When a placed composite store is planned again as the journal has it: the text
    splices, seen from a resumed apply. */
module ResumedProjection {
  import opened Wrappers
  import opened TextLines
  import opened ActorBindingModel
  import CodexSplice
  import DeepSeekSplice

  // The desired file is what the host projects from the store that was there.
  ghost predicate ProjectedFrom(h: Host, e: Effect, current: string) {
    e.projected && e.want.WantFile? && h.project(e.dest, current) == Some(e.want.content)
  }

  /** A placed Codex store is planned again unchanged exactly when the fragment leaves
      nothing behind that a splice would take for the user's, provided the merged text
      is not refused. */
  lemma CodexSettled(h: Host, e: Effect, current: string, fragment: string)
    requires ProjectedFrom(h, e, current)
    requires forall c :: h.project(e.dest, c).Some? ==> h.project(e.dest, c).value == CodexSplice.Spliced(c, fragment)
    ensures Settled(h, e) <==>
      && h.project(e.dest, e.want.content).Some?
      && if CodexSplice.Retained(Lines(current)) == [] then CodexSplice.Leftover(fragment) == []
         else Blank(Join(CodexSplice.Leftover(fragment)))
  {
    hide CodexSplice.Spliced, CodexSplice.Retained, CodexSplice.Leftover, Blank, Lines, Join;
    CodexSplice.IdempotentExactly(current, fragment);
  }

  /** A placed DeepSeek store whose row was replaced is planned again unchanged exactly
      when the generated row closes its last line or nothing follows the old row. */
  lemma DeepSeekSettled(h: Host, e: Effect, current: string, fragment: string, marks: DeepSeekSplice.Marks)
    requires ProjectedFrom(h, e, current)
    requires forall c :: h.project(e.dest, c) == DeepSeekSplice.Projected(c, fragment, marks)
    requires DeepSeekSplice.TargetRow(fragment, marks).Row? && DeepSeekSplice.TargetRow(current, marks).Row?
    requires var c := DeepSeekSplice.TargetRow(current, marks).place; marks(e.want.content) == Some([c.start + c.indent + 2])
    ensures
      var c, s := DeepSeekSplice.TargetRow(current, marks).place, DeepSeekSplice.TargetRow(fragment, marks).place;
      && s.start <= s.end <= |fragment|
      && (Settled(h, e) <==> c.end == |current| || Closed(fragment[s.start..s.end]))
  {
    hide DeepSeekSplice.Projected, DeepSeekSplice.TargetRow, Closed;
    var _, _, _, _ := DeepSeekSplice.SpliceTwice(current, fragment, marks);
  }

  /** A placed DeepSeek store to which the fragment was appended is planned again
      unchanged exactly when the fragment's row has only spaces before its dash. */
  lemma DeepSeekAppendSettled(h: Host, e: Effect, current: string, fragment: string, marks: DeepSeekSplice.Marks)
    requires ProjectedFrom(h, e, current)
    requires forall c :: h.project(e.dest, c) == DeepSeekSplice.Projected(c, fragment, marks)
    requires DeepSeekSplice.TargetRow(fragment, marks).Row? && DeepSeekSplice.TargetRow(current, marks).NoRow?
    requires marks(e.want.content) == Some([|DeepSeekSplice.Base(current)| + marks(fragment).value[0]])
    ensures
      var s := DeepSeekSplice.TargetRow(fragment, marks).place;
      && s.start <= s.end <= |fragment|
      && (Settled(h, e) <==> DeepSeekSplice.Leading(fragment[s.start..s.end]) == s.indent)
  {
    DeepSeekSplice.AppendTwice(current, fragment, marks);
    hide DeepSeekSplice.Projected, DeepSeekSplice.TargetRow, DeepSeekSplice.Leading;
  }

  /** A plan whose projected stores were there themselves, with links that stay valid
      and projections that repeat, survives any number of cut-off applies: wherever one
      is cut off, the next plans what the journal has. */
  lemma RepeatableResumes(h: Host, plan: Plan, p: Dir, t: Dir)
    requires ValidPlan(plan) && Grounded(h, plan) && ApplyInv(plan, p, t) && AllPortable(h, plan)
    requires forall i :: 0 <= i < |plan.effects| ==> Rooted(plan.effects[i])
    requires forall i, c :: 0 <= i < |plan.effects| && plan.effects[i].projected ==>
      Repeats(h, plan.effects[i].dest, c)
    ensures Resumable(h, plan, p, t)
  {
    forall i | 0 <= i < |plan.effects| ensures Settled(h, plan.effects[i]) {
      var e := plan.effects[i];
      if e.projected {
        assert GroundedEffect(h, plan, i);
        assert Repeats(h, e.dest, Projectable(e).value);
      }
    }
    ResumesEverywhere(h, plan, p, t);
  }

  // Projecting into a projection gives it back.
  ghost predicate Repeats(h: Host, n: Name, current: string) {
    h.project(n, current).Some? ==> h.project(n, h.project(n, current).value) == h.project(n, current)
  }
}
