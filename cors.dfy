/**
 * The CORS origin policy of the cookie-session server: the allowed list,
 * read from `CLIENT_ORIGIN` or the six defaults, and the decision the
 * `origin` callback makes for a request's origin.
 */
module Cors {
  import opened Wrappers
  import opened Strings

  const DefaultOrigins: seq<string> := [
    "http://localhost:8080",
    "http://localhost:5173",
    "http://127.0.0.1:5173",
    "https://seembe.vercel.app",
    "https://seembe.pages.dev",
    "https://*.pages.dev"
  ]

  const PagesSuffix: string := ".pages.dev"
  const NotAllowed: string := "Origin not allowed by CORS"

  /** `.map((origin) => origin.trim())`. */
  function TrimAll(origins: seq<string>): (r: seq<string>)
    ensures |r| == |origins|
    ensures forall i :: 0 <= i < |r| ==> r[i] == Trim(origins[i])
  {
    seq(|origins|, i requires 0 <= i < |origins| => Trim(origins[i]))
  }

  /** `CLIENT_ORIGIN` split on commas when it is set and not empty, else the given defaults; every entry trimmed. */
  function OriginList(clientOrigin: Option<string>, defaults: seq<string>): seq<string> {
    TrimAll(if clientOrigin.Some? && clientOrigin.value != "" then Split(clientOrigin.value, ',') else defaults)
  }

  /** `allowedOrigins`. */
  function AllowedOrigins(clientOrigin: Option<string>): seq<string> {
    OriginList(clientOrigin, DefaultOrigins)
  }

  /** Neither end is white space: `trim` has nothing to remove. */
  predicate Tidy(s: string) {
    s != [] ==> !IsSpace(s[0]) && !IsSpace(s[|s| - 1])
  }

  /** Trimming a list of tidy entries changes nothing. */
  lemma TrimAllTidy(origins: seq<string>)
    requires forall i :: 0 <= i < |origins| ==> Tidy(origins[i])
    ensures TrimAll(origins) == origins
  {
    forall i | 0 <= i < |origins| ensures TrimAll(origins)[i] == origins[i] {
      TrimNoSpaceEnds(origins[i]);
    }
  }

  /** Without `CLIENT_ORIGIN`, tidy defaults are used as they are. */
  lemma TidyDefaultsKept(clientOrigin: Option<string>, defaults: seq<string>)
    requires clientOrigin.None? || clientOrigin.value == ""
    requires forall i :: 0 <= i < |defaults| ==> Tidy(defaults[i])
    ensures OriginList(clientOrigin, defaults) == defaults
  {
    TrimAllTidy(defaults);
  }

  /** Without `CLIENT_ORIGIN` the list is the six defaults as written: none of them has white space to trim. */
  lemma DefaultsAsWritten(clientOrigin: Option<string>)
    requires clientOrigin.None? || clientOrigin.value == ""
    ensures AllowedOrigins(clientOrigin) == DefaultOrigins
  {
    forall i | 0 <= i < |DefaultOrigins| ensures Tidy(DefaultOrigins[i]) {
      var o := DefaultOrigins[i];
      assert o[0] == 'h';
      assert o[|o| - 1] in "0123pv";
    }
    TidyDefaultsKept(clientOrigin, DefaultOrigins);
  }

  /** A character absent from a string is absent from its trim. */
  lemma TrimKeepsAbsent(s: string, c: char)
    requires c !in s
    ensures c !in Trim(s)
  {
    TrimIsSlice(s);
    var k := |s| - |TrimStart(s)|;
    SliceKeepsAbsent(s, k, k + |Trim(s)|, c);
  }

  /** With `CLIENT_ORIGIN` set, one entry per comma-separated piece: that piece trimmed, with no comma and nothing left to trim. */
  lemma ConfiguredOrigins(value: string)
    requires value != ""
    ensures var pieces, r := Split(value, ','), AllowedOrigins(Some(value));
      && |r| == |pieces|
      && forall i :: 0 <= i < |pieces| ==> r[i] == Trim(pieces[i]) && ',' !in r[i] && Trim(r[i]) == r[i]
  {
    var pieces := Split(value, ',');
    forall i | 0 <= i < |pieces|
      ensures ',' !in Trim(pieces[i]) && Trim(Trim(pieces[i])) == Trim(pieces[i])
    {
      TrimKeepsAbsent(pieces[i], ',');
      TrimIdempotent(pieces[i]);
    }
  }

  /** What the `origin` callback passes on: the origin allowed, or the error. */
  datatype Decision = Allow | Reject(error: string)

  /**
   * The `origin` callback: no origin (or an empty one), a listed origin,
   * or any origin ending in ".pages.dev" is allowed; anything else is
   * rejected with an error.
   */
  function CheckOrigin(origin: Option<string>, allowed: seq<string>): (d: Decision)
    ensures d.Allow? <==> origin.None? || origin.value == "" || origin.value in allowed || EndsWith(origin.value, PagesSuffix)
    ensures d.Reject? ==> d.error == NotAllowed
  {
    if origin.None? || origin.value == "" || origin.value in allowed then Allow
    else if EndsWith(origin.value, PagesSuffix) then Allow
    else Reject(NotAllowed)
  }

  /** The defaults that do not end in ".pages.dev". */
  const OtherDefaults: seq<string> := DefaultOrigins[..4]

  /**
   * The wildcard entry of the defaults is compared literally, like any
   * other: it is no pattern. Dropping it and "https://seembe.pages.dev" from the
   * defaults changes no decision, because the suffix test alone admits
   * every ".pages.dev" origin.
   */
  lemma PagesEntriesRedundant(origin: Option<string>)
    ensures CheckOrigin(origin, DefaultOrigins) == CheckOrigin(origin, OtherDefaults)
  {
    assert EndsWith(DefaultOrigins[4], PagesSuffix);
    assert EndsWith(DefaultOrigins[5], PagesSuffix);
    if origin.Some? && origin.value in DefaultOrigins && origin.value !in OtherDefaults {
      assert origin.value == DefaultOrigins[4] || origin.value == DefaultOrigins[5];
    }
  }

  /** Whatever `CLIENT_ORIGIN` says, every ".pages.dev" origin is allowed. */
  lemma PagesOriginsAlwaysAllowed(clientOrigin: Option<string>, origin: string)
    requires EndsWith(origin, PagesSuffix)
    ensures CheckOrigin(Some(origin), AllowedOrigins(clientOrigin)) == Allow
  {
  }

  /** An origin that only contains the ".pages.dev" suffix is no default. */
  lemma LookalikeNotListed(o: string)
    requires o == "https://seembe.pages.dev.example.com"
    ensures o !in DefaultOrigins && !EndsWith(o, PagesSuffix)
  {
    assert |o| == 36;
    assert o[35] == 'm';
  }

  /** With the defaults, every origin outside the list and outside ".pages.dev" is rejected; LookalikeNotListed gives one such origin. */
  lemma LookalikeRejected(clientOrigin: Option<string>, o: string)
    requires clientOrigin.None? || clientOrigin.value == ""
    requires o != "" && o !in DefaultOrigins && !EndsWith(o, PagesSuffix)
    ensures CheckOrigin(Some(o), AllowedOrigins(clientOrigin)) == Reject(NotAllowed)
  {
    DefaultsAsWritten(clientOrigin);
  }
}
