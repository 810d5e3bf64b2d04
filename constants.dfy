/**
 * The contact settings of lib/constants.ts: the phone number and e-mail come from the process
 * environment, with "" when unset, and the WhatsApp link is "https://wa.me/" followed by the
 * phone number with every white-space character removed (`replace(/\s/g, "")`).
 */
module Constants {
  import opened Seqs
  import opened Strings

  /** The process environment, `process.env`. */
  type Env = map<string, string>

  /** `process.env[name] || ""`: the variable's value, or "" when it is unset. */
  function EnvOr(env: Env, name: string): (value: string)
    ensures name !in env ==> value == ""
    ensures value != "" ==> name in env && env[name] == value
  {
    if name in env then env[name] else ""
  }

  /** `CONTACT_PHONE`. */
  function ContactPhone(env: Env): string
  {
    EnvOr(env, "CONTACT_PHONE_NUMBER")
  }

  /** `CONTACT_EMAIL`. */
  function ContactEmail(env: Env): string
  {
    EnvOr(env, "CONTACT_EMAIL")
  }

  /** The characters `replace(/\s/g, "")` keeps. */
  function KeepChar(): char -> bool
  {
    (c: char) => !IsWhitespace(c)
  }

  /** `s.replace(/\s/g, "")`: the non-white-space characters of `s`, in order. */
  function StripWhitespace(s: string): (r: string)
    ensures forall i :: 0 <= i < |r| ==> !IsWhitespace(r[i])
    ensures IsSubsequence(r, s)
    ensures forall c :: !IsWhitespace(c) ==> multiset(r)[c] == multiset(s)[c]
  {
    FilterCounts(s, KeepChar());
    Filter(s, KeepChar())
  }

  const WhatsAppPrefix: string := "https://wa.me/"

  /** `WHATSAPP_REF`. */
  function WhatsAppRef(env: Env): (link: string)
    ensures |link| >= |WhatsAppPrefix| && link[..|WhatsAppPrefix|] == WhatsAppPrefix
    ensures forall i :: |WhatsAppPrefix| <= i < |link| ==> !IsWhitespace(link[i])
  {
    WhatsAppPrefix + StripWhitespace(ContactPhone(env))
  }

  /** The link carries every non-white-space character of the phone number, in order and no other. */
  lemma WhatsAppRefKeepsDigits(env: Env)
    ensures var rest := WhatsAppRef(env)[|WhatsAppPrefix|..];
      IsSubsequence(rest, ContactPhone(env)) &&
      forall c :: multiset(rest)[c] == if IsWhitespace(c) then 0 else multiset(ContactPhone(env))[c]
  {
    var rest := WhatsAppRef(env)[|WhatsAppPrefix|..];
    assert rest == StripWhitespace(ContactPhone(env));
    forall c | IsWhitespace(c) ensures multiset(rest)[c] == 0 {
      assert c !in rest;
    }
  }

  /** Without a phone number the link is the bare prefix. */
  lemma UnsetPhoneGivesPrefix(env: Env)
    requires "CONTACT_PHONE_NUMBER" !in env
    ensures WhatsAppRef(env) == "https://wa.me/"
  {
  }

  /** A phone number written without spaces is used as it is. */
  lemma CompactPhoneUnchanged(env: Env)
    requires forall i :: 0 <= i < |ContactPhone(env)| ==> !IsWhitespace(ContactPhone(env)[i])
    ensures WhatsAppRef(env) == WhatsAppPrefix + ContactPhone(env)
  {
    FilterAllPass(ContactPhone(env), KeepChar());
  }

  /** Removing white space a second time changes nothing. */
  lemma StripIdempotent(s: string)
    ensures StripWhitespace(StripWhitespace(s)) == StripWhitespace(s)
  {
    FilterAllPass(StripWhitespace(s), KeepChar());
  }
}
