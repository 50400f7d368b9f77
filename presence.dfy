/** The mapping from a user's presence to the status of an avatar badge. */
module Presence {
  import opened Wrappers
  import opened Entities

  datatype BadgeStatus = Available | Away | DoNotDisturb | Busy | Offline | Unknown {
    /** The badge status as the UI library spells it. */
    function Name(): string {
      match this
      case Available => "available"
      case Away => "away"
      case DoNotDisturb => "do-not-disturb"
      case Busy => "busy"
      case Offline => "offline"
      case Unknown => "unknown"
    }
  }

  /** Distinct badge statuses have distinct names, so a status stands for its string. */
  lemma NamesDistinct(a: BadgeStatus, b: BadgeStatus)
    ensures a.Name() == b.Name() ==> a == b
  {
  }

  /** The presence values the mapping recognises. */
  predicate IsKnownPresence(p: Option<string>) {
    p in {Some("Online"), Some("Idle"), Some("Busy"), Some("Focus"), Some("Invisible")}
  }

  /** The badge for a user, or `Unknown` when there is no user or an unrecognised presence. */
  function ConvertPresence(user: Option<User>): (r: BadgeStatus)
    ensures r.Name() != "unknown" <==> user.Some? && IsKnownPresence(user.value.presence)
    ensures user.Some? && user.value.presence == Some("Online") ==> r.Name() == "available"
    ensures user.Some? && user.value.presence == Some("Idle") ==> r.Name() == "away"
    ensures user.Some? && user.value.presence == Some("Busy") ==> r.Name() == "do-not-disturb"
    ensures user.Some? && user.value.presence == Some("Focus") ==> r.Name() == "busy"
    ensures user.Some? && user.value.presence == Some("Invisible") ==> r.Name() == "offline"
  {
    if user.None? then Unknown
    else match user.value.presence
      case Some("Online") => Available
      case Some("Idle") => Away
      case Some("Busy") => DoNotDisturb
      case Some("Focus") => Busy
      case Some("Invisible") => Offline
      case _ => Unknown
  }

  /** The one presence value that yields a given known badge status. */
  function PresenceFor(status: BadgeStatus): (p: Option<string>)
    requires status != Unknown
    ensures IsKnownPresence(p)
  {
    match status
    case Available => Some("Online")
    case Away => Some("Idle")
    case DoNotDisturb => Some("Busy")
    case Busy => Some("Focus")
    case Offline => Some("Invisible")
  }

  /**
   * Apart from `Unknown`, the mapping is one-to-one: every recognised presence
   * gets its own badge, and `PresenceFor` recovers the presence from it.
   */
  lemma PresenceRoundTrip(user: User, status: BadgeStatus)
    ensures ConvertPresence(Some(user)) != Unknown ==>
              PresenceFor(ConvertPresence(Some(user))) == user.presence
    ensures status != Unknown ==>
              ConvertPresence(Some(user.(presence := PresenceFor(status)))) == status
  {
  }
}
