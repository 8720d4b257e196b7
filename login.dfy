/** The login page (pages/Login.tsx): any password is accepted and the
    display name is derived from the email address. */
module Login {
  import opened Types
  import opened Strings

  /** `toUpperCase` on one character, for ASCII letters only. */
  function ToUpperAscii(c: char): (u: char)
    ensures 'a' <= c <= 'z' ==> 'A' <= u <= 'Z' && u as int == c as int - 32
    ensures !('a' <= c <= 'z') ==> u == c
  {
    if 'a' <= c <= 'z' then (c as int - 32) as char else c
  }

  /** `s.charAt(0).toUpperCase() + s.slice(1)`. */
  function Capitalize(s: string): (r: string)
    ensures |r| == |s|
    ensures s != [] ==> r[0] == ToUpperAscii(s[0]) && r[1..] == s[1..]
  {
    if s == [] then [] else [ToUpperAscii(s[0])] + s[1..]
  }

  /** The name handed to `login`: the local part of the email, capitalised. */
  function DisplayName(email: string): string {
    Capitalize(PrefixBefore(email, '@'))
  }

  /** The name never holds an '@' and is no longer than the email; without
      an '@' the whole email is used, and a leading '@' gives the empty
      name. */
  lemma DisplayNameShape(email: string)
    ensures '@' !in DisplayName(email)
    ensures |DisplayName(email)| <= |email|
    ensures '@' !in email ==> DisplayName(email) == Capitalize(email)
    ensures email != [] && email[0] == '@' ==> DisplayName(email) == []
    ensures DisplayName(email) != [] ==> DisplayName(email)[1..] == PrefixBefore(email, '@')[1..]
  {
  }

  /** Capitalising twice changes nothing more, so a display name derives
      itself. */
  lemma CapitalizeIdempotent(s: string, email: string)
    ensures Capitalize(Capitalize(s)) == Capitalize(s)
    ensures DisplayName(DisplayName(email)) == DisplayName(email)
  {
    DisplayNameShape(email);
    var name := DisplayName(email);
    assert PrefixBefore(name, '@') == name;
    var local := PrefixBefore(email, '@');
    if local != [] {
      assert Capitalize(Capitalize(local)) == Capitalize(local);
    }
  }

  /** The submit handler, with the simulated delay collapsed: the user is
      logged in under the email as typed, whatever the password. */
  function SignIn(email: string, password: string): (u: User)
    ensures u.email == email
    ensures u.name == DisplayName(email)
  {
    User(email, DisplayName(email))
  }

  /** The password plays no part. */
  lemma PasswordIgnored(email: string, p1: string, p2: string)
    ensures SignIn(email, p1) == SignIn(email, p2)
  {
  }

  /** "eva@shop.cz" signs in as "Eva". */
  lemma DisplayNameExample()
    ensures DisplayName("eva@shop.cz") == "Eva"
  {
    assert "eva@shop.cz" == "eva" + ['@'] + "shop.cz";
    PrefixBeforeSplit("eva", '@', "shop.cz");
    assert Capitalize("eva") == [ToUpperAscii('e')] + "va";
  }
}
