/** The CORS policy `bootstrap` installs (src/main.ts): the allowed
    origins come from `CORS_WHITELIST`, a comma-separated list, and the
    origin callback lets a request through when it carries no origin or
    one of the listed origins exactly. */
module Cors {
  import opened Wrappers
  import opened Text

  /** `parts.map(trim).filter(Boolean)`. */
  function TrimmedEntries(parts: seq<string>): (entries: seq<string>)
    ensures |entries| <= |parts|
    ensures forall i :: 0 <= i < |entries| ==> entries[i] != "" && Trim(entries[i]) == entries[i]
  {
    if parts == [] then []
    else
      TrimIdempotent(parts[0]);
      var rest := TrimmedEntries(parts[1..]);
      if Trim(parts[0]) == "" then rest else [Trim(parts[0])] + rest
  }

  /** The entries are exactly the non-empty trimmed parts. */
  lemma {:induction false} TrimmedEntriesMembers(parts: seq<string>, e: string)
    ensures e in TrimmedEntries(parts) <==> e != "" && exists p :: p in parts && Trim(p) == e
  {
    if parts != [] {
      var rest := TrimmedEntries(parts[1..]);
      TrimmedEntriesMembers(parts[1..], e);
      if e in TrimmedEntries(parts) {
        if e in rest {
          var p :| p in parts[1..] && Trim(p) == e;
          assert p in parts;
        } else {
          assert e == Trim(parts[0]) && parts[0] in parts;
        }
      }
      if e != "" && exists p :: p in parts && Trim(p) == e {
        var p :| p in parts && Trim(p) == e;
        if p != parts[0] {
          assert p in parts[1..];
        }
      }
    }
  }

  /** `(CORS_WHITELIST ?? '').split(',').map(trim).filter(Boolean)`: `??`
      only replaces an unset variable. */
  function Whitelist(env: Option<string>): (w: seq<string>)
  {
    TrimmedEntries(Split(if env.Some? then env.value else "", ','))
  }

  /** No variable, or one holding only blanks and commas, lists nothing;
      every entry is a non-empty trimmed piece of the variable between
      commas, and every such piece is listed. */
  lemma WhitelistEntries(env: Option<string>, e: string)
    ensures env.None? ==> Whitelist(env) == []
    ensures e in Whitelist(env) <==>
      e != "" && exists p :: p in Split(if env.Some? then env.value else "", ',') && Trim(p) == e
    ensures e in Whitelist(env) ==> ',' !in e
  {
    TrimmedEntriesMembers(Split(if env.Some? then env.value else "", ','), e);
    if env.None? {
      assert Split("", ',') == [""];
      assert Trim("") == "";
    }
    if e in Whitelist(env) {
      var p :| p in Split(if env.Some? then env.value else "", ',') && Trim(p) == e;
      TrimNoNewChar(p, ',');
    }
  }

  /** Trimming removes characters and never adds one. */
  lemma TrimNoNewChar(p: string, c: char)
    requires c !in p
    ensures c !in Trim(p)
  {
    var t := Trim(p);
    forall i | 0 <= i < |t|
      ensures t[i] != c
    {
      assert t[i] in p;
    }
  }

  /** Listing trimmed, comma-free origins joined by commas whitelists
      exactly those origins, in order. */
  lemma {:induction false} WhitelistOfJoin(origins: seq<string>)
    requires |origins| >= 1
    requires forall i :: 0 <= i < |origins| ==> origins[i] != "" && ',' !in origins[i] && Trim(origins[i]) == origins[i]
    ensures Whitelist(Some(Join(origins, ','))) == origins
  {
    SplitJoin(origins, ',');
    TrimmedOfTrimmed(origins);
  }

  lemma {:induction false} TrimmedOfTrimmed(parts: seq<string>)
    requires forall i :: 0 <= i < |parts| ==> parts[i] != "" && Trim(parts[i]) == parts[i]
    ensures TrimmedEntries(parts) == parts
  {
    if parts != [] {
      TrimmedOfTrimmed(parts[1..]);
      assert parts == [parts[0]] + parts[1..];
    }
  }

  /** What the origin callback answers: `callback(null, true)` or the
      error it passes. */
  function OriginDecision(whitelist: seq<string>, origin: Option<string>): (r: Result<bool, string>)
    ensures r.Success? ==> r.value
    ensures r.Success? <==> !Truthy(origin) || origin.value in whitelist
    ensures r.Failure? ==> r.error == "Not allowed by CORS: " + origin.value
  {
    if !Truthy(origin) || origin.value in whitelist then Success(true)
    else Failure("Not allowed by CORS: " + origin.value)
  }

  /** A request with no origin is let through whatever is configured; an
      origin is let through exactly when some comma-separated piece of the
      variable trims to it, character for character; with the variable
      unset, or for an origin holding a comma, every origin is refused, and
      the refusal names the origin. */
  lemma OriginPolicy(env: Option<string>, origin: string)
    requires origin != ""
    ensures OriginDecision(Whitelist(env), None) == OriginDecision(Whitelist(env), Some("")) == Success(true)
    ensures OriginDecision(Whitelist(env), Some(origin)).Success? <==>
      exists p :: p in Split(if env.Some? then env.value else "", ',') && Trim(p) == origin
    ensures env.None? || ',' in origin ==>
      OriginDecision(Whitelist(env), Some(origin)) == Failure("Not allowed by CORS: " + origin)
  {
    WhitelistEntries(env, origin);
  }
}
