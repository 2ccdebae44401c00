/**
 * The text-to-speech side of the backend (tiktokConnection/tiktokConnector.go):
 * which chat messages are read aloud, and the line queued for each. Go
 * strings are byte strings, and the queued line is measured and cut in
 * bytes, so the text here is a sequence of bytes.
 */
module Comments {
  import opened Wrappers
  import opened Text

  newtype byte = x: int | 0 <= x < 256

  predicate IsAscii(s: string) {
    forall i :: 0 <= i < |s| ==> s[i] as int < 128
  }

  /** The bytes of an ASCII literal. */
  function Ascii(s: string): (b: seq<byte>)
    requires IsAscii(s)
    ensures |b| == |s|
  {
    seq(|s|, i requires 0 <= i < |s| => s[i] as int as byte)
  }

  datatype Badge = Badge(name: seq<byte>)

  /** A chat author; a nil badge list is `None`. */
  datatype ChatUser = ChatUser(username: seq<byte>, badges: Option<seq<Badge>>)

  /** A chat message; a nil author is `None`. */
  datatype ChatEvent = ChatEvent(comment: seq<byte>, user: Option<ChatUser>)

  const FanBadgeMarker: seq<byte> := Ascii("fans_badge_icon_lv")
  const GrayMarker: seq<byte> := Ascii("_gray_")

  /** A badge name of an active fan-club level: it names a fan badge and is not the gray (lapsed) variant. */
  predicate IsFanBadge(b: Badge) {
    Contains(b.name, FanBadgeMarker) && !Contains(b.name, GrayMarker)
  }

  /** The author exists, has a badge list, and one of its badges is an active fan badge. */
  ghost predicate IsFanUser(user: Option<ChatUser>) {
    && user.Some?
    && user.value.badges.Some?
    && exists i :: 0 <= i < |user.value.badges.value| && IsFanBadge(user.value.badges.value[i])
  }

  /** Go's `isFan`: scan the badges and stop at the first active fan badge. */
  method IsFan(user: Option<ChatUser>) returns (fan: bool)
    ensures fan <==> IsFanUser(user)
  {
    if user.Some? && user.value.badges.Some? {
      var badges := user.value.badges.value;
      var i := 0;
      while i < |badges|
        invariant 0 <= i <= |badges|
        invariant forall j :: 0 <= j < i ==> !IsFanBadge(badges[j])
      {
        if IsFanBadge(badges[i]) {
          return true;
        }
        i := i + 1;
      }
    }
    return false;
  }

  /** The first `n` bytes of `s` (all of `s` when it is shorter). */
  function Truncate(s: seq<byte>, n: nat): (t: seq<byte>)
    ensures |t| <= n && t <= s
    ensures |s| <= n ==> t == s
    ensures |s| > n ==> t == s[..n]
  {
    if |s| > n then s[..n] else s
  }

  /** The line read aloud for a comment: "<comment> dedi <username>", cut to `maxChars` bytes. */
  function CommentLine(comment: seq<byte>, username: seq<byte>, maxChars: nat): (line: seq<byte>)
    ensures |line| <= maxChars
    ensures line <= comment + Ascii(" dedi ") + username
    ensures |comment + Ascii(" dedi ") + username| <= maxChars ==> line == comment + Ascii(" dedi ") + username
    ensures |comment + Ascii(" dedi ") + username| > maxChars ==> line == (comment + Ascii(" dedi ") + username)[..maxChars]
  {
    Truncate(comment + Ascii(" dedi ") + username, maxChars)
  }
}
