/**
 * `_skip_test_group` of integration-tests/features/environment.py: whether a
 * feature or scenario tagged `@skip` is skipped, given the run's active tag
 * filter. behave's tag-expression matcher is not part of this model: its
 * two answers are inputs.
 */
module SkipDecision {

  /** `_AUTOSKIP_TAG` */
  const AutoskipTag: string := "skip"
  /** `_WIP_TAG` */
  const WipTag: string := "wip"
  /** The reason given to `test_group.skip`. */
  const SkipReason: string := "Marked with @skip"

  /**
   * What the decision uses of `context.config.tags`: whether the filter is
   * non-empty (its truthiness), and what its `check` answers for `["skip"]`
   * and for `["skip", "wip"]`.
   */
  datatype ActiveTags = ActiveTags(nonEmpty: bool, matchesSkip: bool, matchesSkipAndWip: bool)

  /**
   * The decision: a group is skipped exactly when it is tagged `skip`, the
   * filter does not request `skip`, and it is not both tagged `wip` and
   * under a filter that requests `skip` with `wip`.
   */
  function ShouldSkip(groupTags: seq<string>, active: ActiveTags): (skip: bool)
    ensures skip <==>
      && AutoskipTag in groupTags
      && !(active.nonEmpty && active.matchesSkip)
      && !(WipTag in groupTags && active.nonEmpty && active.matchesSkipAndWip)
  {
    var autoskipTagSet := AutoskipTag in groupTags;
    var autoskipTagRequested := active.nonEmpty && active.matchesSkip;
    var wipTagSet := WipTag in groupTags;
    var wipTagRequested := active.nonEmpty && active.matchesSkipAndWip;
    var overrideAutoskip := autoskipTagRequested || (wipTagSet && wipTagRequested);
    autoskipTagSet && !overrideAutoskip
  }

  /** A feature or scenario: its tags, and the reasons `skip` has been called with. */
  class TestGroup {
    const tags: seq<string>
    var skipCalls: seq<string>

    constructor (tags: seq<string>)
      ensures this.tags == tags && skipCalls == []
    {
      this.tags := tags;
      skipCalls := [];
    }
  }

  /** `_skip_test_group(context, test_group)`: decide, and mark the group skipped exactly when it is. */
  method SkipTestGroup(active: ActiveTags, group: TestGroup) returns (skip: bool)
    modifies group
    ensures skip == ShouldSkip(group.tags, active)
    ensures group.skipCalls == if skip then old(group.skipCalls) + [SkipReason] else old(group.skipCalls)
  {
    skip := ShouldSkip(group.tags, active);
    if skip {
      group.skipCalls := group.skipCalls + [SkipReason];
    }
  }

  /** With an empty filter neither override is requested: exactly the groups tagged `skip` are skipped. */
  lemma EmptyFilterSkipsTagged(groupTags: seq<string>, active: ActiveTags)
    requires !active.nonEmpty
    ensures ShouldSkip(groupTags, active) <==> AutoskipTag in groupTags
  {
  }

  /** A group without the `wip` tag is not rescued by a filter requesting `skip` with `wip`. */
  lemma WipOverrideNeedsWipTag(groupTags: seq<string>, active: ActiveTags)
    requires WipTag !in groupTags
    ensures ShouldSkip(groupTags, active) == ShouldSkip(groupTags, active.(matchesSkipAndWip := false))
  {
  }
}
