/**
 * app/profile/page.tsx: the profile user built from the signed-in user and
 * the initials shown in the avatar, both set by the page's effect.
 */
module Profile {
  import opened Types
  import opened Strings

  const DefaultInitials := "JD"
  const LoginRoute := "/login"

  /** The page's own user record (lines 33-43); the fields it leaves unset are not modelled. */
  datatype ProfileUser = ProfileUser(id: string, email: string, name: string, polls: seq<Poll>, votes: seq<Vote>)

  /** Lines 56-64: id and email copied, the name or '', no polls and no votes yet. */
  function ToProfileUser(u: User): (r: ProfileUser)
    ensures r.id == u.id && r.email == u.email && r.name == u.name
    ensures r.polls == [] && r.votes == []
  {
    ProfileUser(u.id, u.email, OrElse(u.name, ""), [], [])
  }

  /** `part[0]` inside a template string: an empty part has no first character and prints as "undefined". */
  function FirstCharText(part: string): (r: string)
    ensures |r| == 1 <==> part != ""
    ensures part != "" ==> r <= part
  {
    if part == "" then "undefined" else [part[0]]
  }

  /** `s.substring(0, n)`. */
  function Take(s: string, n: nat): (r: string)
    ensures r <= s && |r| == if |s| < n then |s| else n
  {
    if |s| < n then s else s[..n]
  }

  /** Lines 70-74 before uppercasing: two first letters, or the first two characters of a single word. */
  function RawInitials(name: string): string
  {
    var parts := Split(name, ' ');
    if |parts| > 1 then FirstCharText(parts[0]) + FirstCharText(parts[1]) else Take(parts[0], 2)
  }

  /** The initials after the effect runs with a user named `name` (lines 69-75). */
  function NextInitials(previous: string, name: string): string
  {
    if name != "" then Upper(RawInitials(name)) else previous
  }

  /** Without a name the initials stay as they were, 'JD' from the start. */
  lemma NoNameKeepsInitials(previous: string)
    ensures NextInitials(previous, "") == previous
    ensures NextInitials(DefaultInitials, "") == "JD"
  {
  }

  /**
   * Two or more words: the first letters of the first two, uppercased;
   * later words do not matter.
   */
  lemma TwoWordInitials(previous: string, first: string, second: string, rest: string)
    requires first != "" && second != "" && ' ' !in first && ' ' !in second
    requires rest == "" || rest[0] == ' '
    ensures NextInitials(previous, first + " " + second + rest) == Upper([first[0], second[0]])
  {
    var name := first + " " + second + rest;
    assert name == first + [' '] + (second + rest);
    BeforeOfJoin(first, ' ', second + rest);
    if rest != "" {
      assert second + rest == second + [' '] + rest[1..];
      BeforeOfJoin(second, ' ', rest[1..]);
    } else {
      assert second + rest == second;
    }
    assert RawInitials(name) == [first[0]] + [second[0]];
  }

  /** A single word: its first two characters (or the whole of a shorter word), uppercased. */
  lemma OneWordInitials(previous: string, word: string)
    requires word != "" && ' ' !in word
    ensures NextInitials(previous, word) == Upper(Take(word, 2))
    ensures |NextInitials(previous, word)| == if |word| < 2 then 1 else 2
  {
  }

  /** A name that starts with a space yields an empty first word, which prints as "undefined". */
  lemma LeadingSpaceInitials()
    ensures NextInitials(DefaultInitials, " ann") == "UNDEFINEDA"
  {
    BeforeOfJoin("", ' ', "ann");
    assert " ann" == "" + [' '] + "ann";
    assert RawInitials(" ann") == "undefined" + "a";
  }

  /** The effect of lines 51-77: the new initials, the new profile user and the route pushed, if any. */
  function EffectOf(initials: string, user: Option<ProfileUser>, authUser: Option<User>, loading: bool): (string, Option<ProfileUser>, Option<string>)
  {
    if !loading && authUser.None? then (initials, user, Some(LoginRoute))
    else if authUser.Some? then (NextInitials(initials, authUser.value.name), Some(ToProfileUser(authUser.value)), None)
    else (initials, user, None)
  }

  /**
   * The page redirects to the login route exactly when loading has finished
   * without a user; with a user it shows that user, and otherwise nothing changes.
   */
  lemma EffectCases(initials: string, user: Option<ProfileUser>, authUser: Option<User>, loading: bool)
    ensures var (i, u, redirect) := EffectOf(initials, user, authUser, loading);
      && (redirect == Some(LoginRoute) <==> !loading && authUser.None?)
      && (redirect.None? ==> authUser.Some? || loading)
      && (authUser.Some? ==> u == Some(ToProfileUser(authUser.value)) && u.value.name == authUser.value.name)
      && (authUser.None? ==> i == initials && u == user)
  {
  }

  /** The page's state. */
  class ProfilePage {
    var initials: string
    var user: Option<ProfileUser>

    /** Lines 48-49. */
    constructor ()
      ensures initials == DefaultInitials && user == None
    {
      initials, user := DefaultInitials, None;
    }

    method OnAuthChange(authUser: Option<User>, loading: bool) returns (redirect: Option<string>)
      modifies this
      ensures (initials, user, redirect) == EffectOf(old(initials), old(user), authUser, loading)
    {
      redirect := None;
      if !loading && authUser.None? {
        redirect := Some(LoginRoute);
      } else if authUser.Some? {
        var u := authUser.value;
        user := Some(ToProfileUser(u));
        if u.name != "" {
          var parts := Split(u.name, ' ');
          var raw := if |parts| > 1 then FirstCharText(parts[0]) + FirstCharText(parts[1]) else Take(parts[0], 2);
          initials := Upper(raw);
        }
      }
    }
  }
}
