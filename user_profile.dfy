/** The profile badge: the user's initials, the dropdown and logging out. */
module UserProfile {
  import opened Wrappers
  import Text

  /** `n[0]` of one piece; an empty piece gives undefined, which joins as nothing. */
  function FirstChar(s: string): (r: string)
    ensures |r| <= 1
    ensures |s| > 0 ==> r == [s[0]]
    ensures |s| == 0 ==> r == ""
  {
    if |s| == 0 then "" else [s[0]]
  }

  function FirstChars(parts: seq<string>): (r: seq<string>)
    ensures |r| == |parts|
    ensures forall k :: 0 <= k < |r| ==> r[k] == FirstChar(parts[k])
  {
    seq(|parts|, k requires 0 <= k < |parts| => FirstChar(parts[k]))
  }

  /** The number of non-empty pieces. */
  function NonEmptyCount(parts: seq<string>): nat {
    if |parts| == 0 then 0 else (if parts[0] != "" then 1 else 0) + NonEmptyCount(parts[1..])
  }

  /** The first characters of the pieces, run together. */
  function Heads(parts: seq<string>): (r: string)
    ensures |r| == NonEmptyCount(parts) && |r| <= |parts|
  {
    if |parts| == 0 then "" else FirstChar(parts[0]) + Heads(parts[1..])
  }

  /** Joining the first characters with "" is running them together. */
  lemma {:induction false} JoinFirstChars(parts: seq<string>)
    ensures Text.Join(FirstChars(parts), "") == Heads(parts)
  {
    if |parts| > 1 {
      assert FirstChars(parts)[1..] == FirstChars(parts[1..]);
      JoinFirstChars(parts[1..]);
    } else if |parts| == 1 {
      assert parts[1..] == [];
    }
  }

  /**
   * Reference definition: the characters that start a word, a word being a
   * run of non-spaces; `atStart` says whether the previous character was a
   * space (or there was none).
   */
  function WordStarts(s: string, atStart: bool): string {
    if |s| == 0 then ""
    else (if s[0] != ' ' && atStart then [s[0]] else "") + WordStarts(s[1..], s[0] == ' ')
  }

  /** The first characters of the pieces of a split on spaces are the word starts. */
  lemma {:induction false} HeadsAreWordStarts(s: string)
    ensures Heads(Text.Split(s, ' ')) == WordStarts(s, true)
    ensures Heads(Text.Split(s, ' ')[1..]) == WordStarts(s, false)
  {
    if |s| > 0 {
      var rest := Text.Split(s[1..], ' ');
      HeadsAreWordStarts(s[1..]);
      if s[0] == ' ' {
        assert Text.Split(s, ' ') == [""] + rest;
        assert ([""] + rest)[1..] == rest;
      } else {
        var parts := [[s[0]] + rest[0]] + rest[1..];
        assert Text.Split(s, ' ') == parts;
        assert parts[1..] == rest[1..];
      }
    }
  }

  /** `getInitials`: split on " ", first character of each piece, joined and uppercased. */
  function GetInitials(name: string): (r: string)
    ensures |r| == NonEmptyCount(Text.Split(name, ' '))
    ensures |r| <= Text.Occurrences(name, ' ') + 1
    ensures r == Text.Upper(WordStarts(name, true))
  {
    var parts := Text.Split(name, ' ');
    JoinFirstChars(parts);
    HeadsAreWordStarts(name);
    Text.Upper(Text.Join(FirstChars(parts), ""))
  }

  /** What the badge shows: the initials of the signed-in user, "?" when there is none. */
  function Badge(user: Option<string>): (r: string)
    ensures user.None? ==> r == "?"
    ensures user.Some? ==> r == GetInitials(user.value)
  {
    if user.Some? then GetInitials(user.value) else "?"
  }

  class ProfileMenu {
    /** Browser storage; the "user" entry is held as the name it records. */
    var storage: map<string, string>
    var user: Option<string>
    var dropdownOpen: bool
    var route: Option<string>

    constructor(storage: map<string, string>)
      ensures this.storage == storage && user.None? && !dropdownOpen && route.None?
    {
      this.storage := storage;
      user := None;
      dropdownOpen := false;
      route := None;
    }

    /** On mount: the stored user, if there is one. */
    method LoadUser()
      modifies this`user
      ensures "user" in storage ==> user == Some(storage["user"])
      ensures "user" !in storage ==> user == old(user)
    {
      if "user" in storage {
        user := Some(storage["user"]);
      }
    }

    method ToggleDropdown()
      modifies this`dropdownOpen
      ensures dropdownOpen == !old(dropdownOpen)
    {
      dropdownOpen := !dropdownOpen;
    }

    /** Logging out forgets the stored user, keeps the other entries and goes to the sign-in page. */
    method HandleLogout()
      modifies this`storage, this`route
      ensures storage == old(storage) - {"user"}
      ensures "user" !in storage
      ensures forall k :: k in old(storage) && k != "user" ==> k in storage && storage[k] == old(storage)[k]
      ensures route == Some("/auth")
    {
      storage := storage - {"user"};
      route := Some("/auth");
    }
  }
}
