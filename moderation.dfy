/**
 * What the three moderation pages share: the requesting actor, as the
 * user module reports it, and the loosely typed values of a query string.
 */
module Moderation {
  import opened JsText

  /**
   * The requester, as answered by user.isAdministrator, user.isGlobalModerator
   * and user.getModeratedCids; user.isAdminOrGlobalMod is the disjunction of the first two.
   */
  datatype Actor = Actor(uid: int, isAdministrator: bool, isGlobalModerator: bool, moderatedCids: seq<int>) {

    predicate IsAdminOrGlobalMod() {
      isAdministrator || isGlobalModerator
    }

    /**
     * Admin, global moderator, or moderator of some category: the flag list's
     * gate, the flag detail's gate and the post queue's canAccept flag.
     */
    predicate MayModerate() {
      IsAdminOrGlobalMod() || |moderatedCids| > 0
    }
  }

  /**
   * One value of req.query: a string, an array of strings (a repeated
   * parameter), or a nested object (`a[b]=c`).
   */
  datatype QueryValue = Str(s: string) | Arr(items: seq<string>) | Obj

  type Query = map<string, QueryValue>

  /** JavaScript truthiness of a query value: only the empty string is falsy; arrays and objects never are. */
  predicate IsTruthy(v: QueryValue) {
    !v.Str? || v.s != ""
  }

  /** String(v), as parseInt applies it to its argument. */
  function ToJsString(v: QueryValue): string {
    match v
    case Str(s) => s
    case Arr(items) => JoinWithCommas(items)
    case Obj => "[object Object]"
  }
}
