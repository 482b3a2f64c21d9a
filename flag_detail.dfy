/**
 * The flag detail page (modsController.flags.detail): the combined
 * "not found" gate, the history shown only to admins and global moderators,
 * and the display fields type_path and type_bool.
 */
module FlagDetail {
  import opened Wrappers
  import opened Moderation

  /** One entry of a flag's audit history, as flags.getHistory returns it; opaque here. */
  datatype HistoryEntry = HistoryEntry(fields: map<string, string>)

  /**
   * A flag as flags.get returns it, with the two fields the handler writes:
   * `target` is the flagged post or user (None when falsy).
   */
  datatype Flag = Flag(
    flagType: string,
    target: Option<map<string, string>>,
    history: Option<seq<HistoryEntry>>,
    typePath: Option<string>)

  /** The tags reduced over to build type_bool. */
  const TypeTags: seq<string> := ["post", "user", "empty"]

  /** The value type_bool gives a tag, when it can be computed (tag "empty" needs a target). */
  function TagValue(tag: string, flagType: string, target: map<string, string>): bool {
    if tag == "empty" then |target| == 0 else flagType == tag && |target| > 0
  }

  /** One step of the reduce; None is the TypeError thrown by Object.keys(undefined). */
  function TypeBoolStep(memo: Option<map<string, bool>>, cur: string, flagType: string,
                        target: Option<map<string, string>>): Option<map<string, bool>>
  {
    if memo.None? then None
    else if cur != "empty" then
      Some(memo.value[cur := flagType == cur && (target.None? || |target.value| > 0)])
    else if target.None? then None
    else Some(memo.value[cur := |target.value| == 0])
  }

  function TypeBoolFrom(memo: Option<map<string, bool>>, tags: seq<string>, flagType: string,
                        target: Option<map<string, string>>): Option<map<string, bool>>
    decreases |tags|
  {
    if tags == [] then memo
    else TypeBoolFrom(TypeBoolStep(memo, tags[0], flagType, target), tags[1..], flagType, target)
  }

  /** type_bool: None when the flag has no target (the reduce throws on the "empty" tag). */
  function TypeBool(flagType: string, target: Option<map<string, string>>): Option<map<string, bool>> {
    TypeBoolFrom(Some(map[]), TypeTags, flagType, target)
  }

  lemma {:induction false} TypeBoolFromSpec(memo: map<string, bool>, tags: seq<string>, flagType: string,
                                            target: Option<map<string, string>>)
    ensures TypeBoolFrom(Some(memo), tags, flagType, target).None? <==> "empty" in tags && target.None?
    ensures target.Some? ==>
      var m := TypeBoolFrom(Some(memo), tags, flagType, target).value;
      (forall k :: k in m <==> k in memo || k in tags)
      && forall k :: k in m ==> m[k] == if k in tags then TagValue(k, flagType, target.value) else memo[k]
    decreases |tags|
  {
    if tags != [] {
      var next := TypeBoolStep(Some(memo), tags[0], flagType, target);
      assert forall k :: k in tags <==> k == tags[0] || k in tags[1..];
      if next.None? {
        assert TypeBoolFrom(next, tags[1..], flagType, target).None? by {
          TypeBoolFromNone(tags[1..], flagType, target);
        }
      } else {
        TypeBoolFromSpec(next.value, tags[1..], flagType, target);
      }
    }
  }

  lemma {:induction false} TypeBoolFromNone(tags: seq<string>, flagType: string, target: Option<map<string, string>>)
    ensures TypeBoolFrom(None, tags, flagType, target).None?
    decreases |tags|
  {
    if tags != [] {
      TypeBoolFromNone(tags[1..], flagType, target);
    }
  }

  /**
   * type_bool has the keys post, user and empty once the flag has a target;
   * post/user hold when the flag is of that type and its target is not empty,
   * empty holds when the target has no keys. Without a target it throws.
   */
  lemma TypeBoolSpec(flagType: string, target: Option<map<string, string>>)
    ensures TypeBool(flagType, target).Some? <==> target.Some?
    ensures target.Some? ==>
      var m := TypeBool(flagType, target).value;
      m.Keys == {"post", "user", "empty"}
      && m["post"] == (flagType == "post" && |target.value| > 0)
      && m["user"] == (flagType == "user" && |target.value| > 0)
      && m["empty"] == (|target.value| == 0)
  {
    TypeBoolFromSpec(map[], TypeTags, flagType, target);
    assert forall k :: k in TypeTags <==> k == "post" || k == "user" || k == "empty";
  }

  /** For a post or user flag with a target, exactly one of the three type_bool entries holds. */
  lemma TypeBoolSelectsOneBranch(flagType: string, target: map<string, string>)
    requires flagType == "post" || flagType == "user"
    ensures var m := TypeBool(flagType, Some(target)).value;
      (m["post"] && !m["user"] && !m["empty"])
      || (!m["post"] && m["user"] && !m["empty"])
      || (!m["post"] && !m["user"] && m["empty"])
  {
    TypeBoolSpec(flagType, Some(target));
  }

  /** NotFound is next() (the 404 path); Failed is the TypeError from a missing target. */
  datatype DetailOutcome = NotFound | Failed | Shown(flag: Flag, typeBool: map<string, bool>)

  /**
   * The handler: `flag` is what flags.get returned and `history` what
   * flags.getHistory would return; the flag is updated in place before rendering.
   */
  method ShowDetail(actor: Actor, flag: Option<Flag>, history: seq<HistoryEntry>) returns (out: DetailOutcome)
    ensures out.NotFound? <==> flag.None? || !actor.MayModerate()
    ensures out.Failed? <==> flag.Some? && actor.MayModerate() && flag.value.target.None?
    ensures out.Shown? ==> out.flag.flagType == flag.value.flagType && out.flag.target == flag.value.target
    ensures out.Shown? ==> out.flag.history == if actor.IsAdminOrGlobalMod() then Some(history) else None
    ensures out.Shown? ==>
      out.flag.typePath == (if flag.value.flagType == "user" then Some("uid")
       else if flag.value.flagType == "post" then Some("post")
       else flag.value.typePath)
    ensures out.Shown? ==> TypeBool(flag.value.flagType, flag.value.target) == Some(out.typeBool)
    ensures out.Shown? ==>
      var target := flag.value.target.value;
      out.typeBool.Keys == {"post", "user", "empty"}
      && out.typeBool["post"] == (flag.value.flagType == "post" && |target| > 0)
      && out.typeBool["user"] == (flag.value.flagType == "user" && |target| > 0)
      && out.typeBool["empty"] == (|target| == 0)
  {
    if flag.None? || !(actor.IsAdminOrGlobalMod() || |actor.moderatedCids| > 0) {
      return NotFound;
    }
    var flagData := flag.value;
    flagData := flagData.(history := if actor.IsAdminOrGlobalMod() then Some(history) else None);
    if flagData.flagType == "user" {
      flagData := flagData.(typePath := Some("uid"));
    } else if flagData.flagType == "post" {
      flagData := flagData.(typePath := Some("post"));
    }
    var typeBool := TypeBool(flagData.flagType, flagData.target);
    TypeBoolSpec(flagData.flagType, flagData.target);
    if typeBool.None? {
      return Failed;
    }
    out := Shown(flagData, typeBool.value);
  }
}
