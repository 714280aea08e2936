/**
 * The persona settings of persona.py: which contact the prompt is written
 * for and how Dava greets them. The environment is read once, at import
 * time, and is a record of optional values here.
 */
module Persona {
  import opened Wrappers
  import opened Text

  /** The environment variables persona.py reads; `None` is an unset variable. */
  datatype PersonaEnv = PersonaEnv(
    targetContact: Option<string>,
    sapaanDefault: Option<string>,
    sapaanIntimate: Option<string>,
    allowIntimate: Option<string>)

  const DefaultContact := "sopia"

  /** `_DEFAULT_TARGET` (and `TARGET_CONTACT`): the variable, unless unset or empty, then "sopia"; stripped. */
  function DefaultTarget(env: PersonaEnv): string {
    Strip(if Truthy(env.targetContact) then env.targetContact.value else DefaultContact)
  }

  /** `DEFAULT_NICKNAMES` */
  const Nicknames: map<string, string> := map[DefaultContact := "Sopi"]

  /** `SAPAAN_INTIMATE`: the variable when set (even empty), else "sayang". */
  function SapaanIntimate(env: PersonaEnv): string {
    env.sapaanIntimate.GetOr("sayang")
  }

  /** The values of ALLOW_INTIMATE that switch intimate greetings on, once stripped and lowercased. */
  const TrueWords: set<string> := {"1", "true", "yes", "y"}

  /** `ALLOW_INTIMATE_ENV` */
  predicate AllowIntimateEnv(env: PersonaEnv) {
    Lower(Strip(env.allowIntimate.GetOr("false"))) in TrueWords
  }

  /**
   * `_resolve_sapaan`: an explicit greeting wins; otherwise the intimate
   * greeting when allowed, else SAPAAN_DEFAULT, the contact's nickname, or
   * the contact's name in title case (`title` is `str.title`).
   */
  function ResolveSapaan(env: PersonaEnv, title: string -> string, contact: string,
                         allowIntimate: Option<bool>, sapaan: Option<string>): string
  {
    if Truthy(sapaan) then Strip(sapaan.value)
    else
      var allow := if allowIntimate.None? then AllowIntimateEnv(env) else allowIntimate.value;
      var base :=
        if Truthy(env.sapaanDefault) then env.sapaanDefault.value
        else if Lower(contact) in Nicknames then Nicknames[Lower(contact)]
        else title(contact);
      if allow then SapaanIntimate(env) else base
  }

  /** The two values `build_system_prompt` fills into its template. */
  datatype Greeting = Greeting(target: string, greet: string)

  /** `(contact or TARGET_CONTACT or "sopia").strip()` */
  function Target(env: PersonaEnv, contact: Option<string>): (t: string)
    ensures Strip(t) == t
  {
    var fallback := DefaultTarget(env);
    var chosen := if Truthy(contact) then contact.value else if fallback != "" then fallback else DefaultContact;
    StripIdempotent(chosen);
    Strip(chosen)
  }

  /** `build_system_prompt`: the target contact and the greeting resolved for it. */
  function BuildSystemPrompt(env: PersonaEnv, title: string -> string, contact: Option<string>,
                             sapaan: Option<string>, allowIntimate: Option<bool>): Greeting
  {
    var target := Target(env, contact);
    Greeting(target, ResolveSapaan(env, title, target, allowIntimate, sapaan))
  }

  /** An explicit, non-empty `sapaan` is used, stripped, whatever the environment and the contact. */
  lemma ExplicitSapaanWins(env: PersonaEnv, title: string -> string, contact: string,
                           allowIntimate: Option<bool>, s: string)
    requires s != ""
    ensures ResolveSapaan(env, title, contact, allowIntimate, Some(s)) == Strip(s)
    ensures Strip(ResolveSapaan(env, title, contact, allowIntimate, Some(s))) ==
            ResolveSapaan(env, title, contact, allowIntimate, Some(s))
  {
    StripIdempotent(s);
  }

  /** An explicit `sapaan` of only whitespace is still used, and the greeting is then empty. */
  lemma BlankSapaanGivesEmpty(env: PersonaEnv, title: string -> string, contact: string,
                              allowIntimate: Option<bool>, s: string)
    requires s != "" && forall i :: 0 <= i < |s| ==> IsSpace(s[i])
    ensures ResolveSapaan(env, title, contact, allowIntimate, Some(s)) == ""
  {
    StripEmptyIffBlank(s);
  }

  /** When intimate greetings are allowed and no `sapaan` is given, the greeting is SAPAAN_INTIMATE whatever the contact. */
  lemma IntimateIgnoresContact(env: PersonaEnv, title: string -> string, c1: string, c2: string, sapaan: Option<string>)
    requires !Truthy(sapaan)
    ensures ResolveSapaan(env, title, c1, Some(true), sapaan) == SapaanIntimate(env)
    ensures AllowIntimateEnv(env) ==> ResolveSapaan(env, title, c1, None, sapaan) == SapaanIntimate(env)
    ensures AllowIntimateEnv(env) ==>
      ResolveSapaan(env, title, c1, None, sapaan) == ResolveSapaan(env, title, c2, None, sapaan)
  {
  }

  /** Without an `allow_intimate` argument, ALLOW_INTIMATE decides, exactly as if its value had been passed. */
  lemma UnsetArgumentUsesEnv(env: PersonaEnv, title: string -> string, contact: string, sapaan: Option<string>)
    ensures ResolveSapaan(env, title, contact, None, sapaan) ==
      ResolveSapaan(env, title, contact, Some(AllowIntimateEnv(env)), sapaan)
  {
  }

  /** An explicit `allow_intimate` argument overrides ALLOW_INTIMATE in both directions. */
  lemma ArgumentOverridesEnv(env: PersonaEnv, title: string -> string, contact: string, allow: bool)
    ensures ResolveSapaan(env, title, contact, Some(allow), None) ==
      ResolveSapaan(env.(allowIntimate := Some(if allow then "1" else "0")), title, contact, None, None)
  {
    assert Strip("1") == "1" && Strip("0") == "0";
    assert Lower("1") == "1" && Lower("0") == "0";
  }

  /** ALLOW_INTIMATE unset means no intimate greeting; surrounding blanks and letter case do not matter. */
  lemma AllowIntimateCases(env: PersonaEnv)
    ensures env.allowIntimate.None? ==> !AllowIntimateEnv(env)
    ensures env.allowIntimate == Some(" YES\n") ==> AllowIntimateEnv(env)
    ensures env.allowIntimate == Some("no") ==> !AllowIntimateEnv(env)
  {
    if env.allowIntimate.None? {
      FalseWord();
    } else if env.allowIntimate == Some(" YES\n") {
      YesWord();
    } else if env.allowIntimate == Some("no") {
      NoWord();
    }
  }

  lemma FalseWord()
    ensures Lower(Strip("false")) == "false"
  {
    StripClean("false");
  }

  lemma YesWord()
    ensures Lower(Strip(" YES\n")) == "yes"
  {
    assert Strip(" YES\n") == "YES" by {
      assert " YES\n"[1..] == "YES\n";
      assert "YES\n"[..3] == "YES";
    }
  }

  lemma NoWord()
    ensures Lower(Strip("no")) == "no"
  {
    StripClean("no");
  }

  /** A contact whose lowercased name is in the nickname table is greeted by that nickname, whatever its letter case. */
  lemma NicknameUsed(env: PersonaEnv, title: string -> string, contact: string, sapaan: Option<string>)
    requires !Truthy(sapaan) && !Truthy(env.sapaanDefault) && Lower(contact) in Nicknames
    ensures ResolveSapaan(env, title, contact, Some(false), sapaan) == Nicknames[Lower(contact)]
  {
  }

  /** "sopia", "Sopia" and "SOPIA" are all greeted by the nickname "Sopi". */
  lemma NicknameIgnoresCase(env: PersonaEnv, title: string -> string, contact: string, sapaan: Option<string>)
    requires contact in {"sopia", "Sopia", "SOPIA"}
    requires !Truthy(sapaan) && !Truthy(env.sapaanDefault)
    ensures ResolveSapaan(env, title, contact, Some(false), sapaan) == "Sopi"
  {
    assert Lower(contact) == DefaultContact;
    NicknameUsed(env, title, contact, sapaan);
  }

  /** A non-empty SAPAAN_DEFAULT comes before the nickname table and the contact's name, unless intimate greetings are on. */
  lemma SapaanDefaultBeforeNickname(env: PersonaEnv, title: string -> string, contact: string, sapaan: Option<string>)
    requires !Truthy(sapaan) && Truthy(env.sapaanDefault)
    ensures ResolveSapaan(env, title, contact, Some(false), sapaan) == env.sapaanDefault.value
    ensures ResolveSapaan(env, title, contact, Some(true), sapaan) == SapaanIntimate(env)
  {
  }

  /** A contact with no nickname and no SAPAAN_DEFAULT is greeted by its title-cased name. */
  lemma TitleCaseOtherwise(env: PersonaEnv, title: string -> string, contact: string, sapaan: Option<string>)
    requires !Truthy(sapaan) && !Truthy(env.sapaanDefault) && Lower(contact) !in Nicknames
    ensures ResolveSapaan(env, title, contact, Some(false), sapaan) == title(contact)
  {
  }

  /** Without a contact the target is never empty: TARGET_CONTACT when it has any text, else "sopia". */
  lemma DefaultTargetNotEmpty(env: PersonaEnv)
    ensures Target(env, None) != ""
    ensures Target(env, None) == (if DefaultTarget(env) != "" then DefaultTarget(env) else DefaultContact)
  {
    StripClean(DefaultContact);
    StripIdempotent(if Truthy(env.targetContact) then env.targetContact.value else DefaultContact);
  }

  /** A TARGET_CONTACT of only whitespace is not used: the prompt is written for "sopia". */
  lemma BlankTargetFallsBack(env: PersonaEnv)
    requires Truthy(env.targetContact)
    requires forall i :: 0 <= i < |env.targetContact.value| ==> IsSpace(env.targetContact.value[i])
    ensures DefaultTarget(env) == ""
    ensures Target(env, None) == DefaultContact
  {
    StripEmptyIffBlank(env.targetContact.value);
    StripClean(DefaultContact);
  }

  /** A non-empty contact argument is the target, stripped, whatever TARGET_CONTACT says. */
  lemma GivenContactUsed(env: PersonaEnv, c: string)
    requires c != ""
    ensures Target(env, Some(c)) == Strip(c)
  {
  }

  /** An empty contact argument is falsy, so it falls back exactly like a missing one. */
  lemma EmptyContactFallsBack(env: PersonaEnv)
    ensures Target(env, Some("")) == Target(env, None)
  {
  }

  /** A contact argument of only whitespace is used, and then the target is empty. */
  lemma BlankContactGivesEmptyTarget(env: PersonaEnv, c: string)
    requires c != "" && forall i :: 0 <= i < |c| ==> IsSpace(c[i])
    ensures Target(env, Some(c)) == ""
  {
    StripEmptyIffBlank(c);
  }

  /** With no environment and no arguments, the prompt is for "sopia", greeted as "Sopi". */
  lemma DefaultGreeting(title: string -> string)
    ensures BuildSystemPrompt(PersonaEnv(None, None, None, None), title, None, None, None) ==
      Greeting("sopia", "Sopi")
  {
    var env := PersonaEnv(None, None, None, None);
    assert Target(env, None) == DefaultContact by {
      DefaultTargetNotEmpty(env);
      StripClean(DefaultContact);
    }
    assert ResolveSapaan(env, title, DefaultContact, None, None) == "Sopi" by {
      AllowIntimateCases(env);
      NicknameIgnoresCase(env, title, DefaultContact, None);
    }
  }
}
