/** Nostr events as the gateway sees them after JSON decoding, and the NIP-42 check. */
module AuthEvent {
  import opened Store
  import opened Wrappers

  /** What the cryptographic library says about an event. */
  datatype Checks = Checks(signature: bool, idMatches: bool, pubkeyIsHex: bool)

  datatype Event = Event(
    id: string, pubkey: string, createdAt: int, kind: int, tags: seq<seq<string>>, checks: Checks)

  const AUTH_KIND := 22242

  function TagValue(tags: seq<seq<string>>, name: string): string {
    if tags == [] then ""
    else if |tags[0]| >= 2 && tags[0][0] == name then tags[0][1]
    else TagValue(tags[1..], name)
  }

  /** A relay URL without its trailing slashes. */
  function NormalizeRelayURL(url: string): string {
    if url != "" && url[|url| - 1] == '/' then NormalizeRelayURL(url[..|url| - 1]) else url
  }

  function Verify(event: Event, challenge: string, relayURL: string, maxAge: int, now: Instant): Result<string, string> {
    if event.kind != AUTH_KIND then Err("auth event must be kind 22242")
    else if !event.checks.signature then Err("auth event signature is invalid")
    else if TagValue(event.tags, "challenge") != challenge then Err("auth event challenge does not match")
    else if NormalizeRelayURL(TagValue(event.tags, "relay")) != NormalizeRelayURL(relayURL) then
      Err("auth event relay does not match")
    else if event.createdAt * SECOND < now - maxAge || event.createdAt * SECOND > now + maxAge then
      Err("auth event timestamp is outside allowed age")
    else Ok(event.pubkey)
  }

  // ---------- What the check means ----------

  predicate IsTag(tag: seq<string>, name: string) {
    |tag| >= 2 && tag[0] == name
  }

  /** The first tag `name` of an event carries `value`; an event without one carries "". */
  ghost predicate Carries(tags: seq<seq<string>>, name: string, value: string) {
    || (&& value == ""
        && forall i :: 0 <= i < |tags| ==> !IsTag(tags[i], name))
    || exists i :: 0 <= i < |tags| && IsTag(tags[i], name) && tags[i][1] == value
                   && forall j :: 0 <= j < i ==> !IsTag(tags[j], name)
  }

  predicate Slashes(s: string) {
    forall i :: 0 <= i < |s| ==> s[i] == '/'
  }

  /** Two texts with a common beginning after which both have slashes only. */
  ghost predicate SameUpToSlashes(s: string, t: string) {
    exists n :: 0 <= n <= |s| && n <= |t| && s[..n] == t[..n] && Slashes(s[n..]) && Slashes(t[n..])
  }

  /** What NIP-42 asks of the event that proves `pubkey` to this connection, now. */
  ghost predicate Proves(event: Event, challenge: string, relayURL: string, maxAge: int, now: Instant, pubkey: string) {
    && pubkey == event.pubkey
    && event.kind == 22242
    && event.checks.signature
    && Carries(event.tags, "challenge", challenge)
    && (exists relay :: Carries(event.tags, "relay", relay) && SameUpToSlashes(relay, relayURL))
    && now - maxAge <= event.createdAt * SECOND <= now + maxAge
  }

  lemma {:induction false} TagValueCarried(tags: seq<seq<string>>, name: string, value: string)
    ensures TagValue(tags, name) == value <==> Carries(tags, name, value)
    decreases |tags|
  {
    if tags != [] && !IsTag(tags[0], name) {
      var rest := tags[1..];
      TagValueCarried(rest, name, value);
      if i :| 0 <= i < |rest| && IsTag(rest[i], name) && rest[i][1] == value && forall j :: 0 <= j < i ==> !IsTag(rest[j], name) {
        assert tags[i + 1] == rest[i];
        assert forall j :: 0 < j < i + 1 ==> tags[j] == rest[j - 1];
      }
      if i :| 0 <= i < |tags| && IsTag(tags[i], name) && tags[i][1] == value && forall j :: 0 <= j < i ==> !IsTag(tags[j], name) {
        assert rest[i - 1] == tags[i];
        assert forall j :: 0 <= j < i - 1 ==> rest[j] == tags[j + 1];
      }
      assert (forall i :: 0 <= i < |rest| ==> !IsTag(rest[i], name)) <==> (forall i :: 0 <= i < |tags| ==> !IsTag(tags[i], name)) by {
        assert forall i :: 0 <= i < |rest| ==> rest[i] == tags[i + 1];
        assert forall i :: 0 < i < |tags| ==> tags[i] == rest[i - 1];
      }
    }
  }

  lemma {:induction false} NormalizedCore(url: string)
    ensures var core := NormalizeRelayURL(url);
            && core <= url && Slashes(url[|core|..])
            && (core != "" ==> core[|core| - 1] != '/')
  {
    if url != "" && url[|url| - 1] == '/' {
      var init := url[..|url| - 1];
      NormalizedCore(init);
      var core := NormalizeRelayURL(init);
      assert url[|core|..] == init[|core|..] + "/";
    }
  }

  /** Texts are the same up to slashes exactly if they are equal without them. */
  lemma NormalizedAlike(s: string, t: string)
    ensures NormalizeRelayURL(s) == NormalizeRelayURL(t) <==> SameUpToSlashes(s, t)
  {
    hide NormalizeRelayURL;
    NormalizedCore(s);
    NormalizedCore(t);
    var a, b := NormalizeRelayURL(s), NormalizeRelayURL(t);
    if a == b {
      assert s[..|a|] == t[..|a|] && Slashes(s[|a|..]) && Slashes(t[|a|..]);
    }
    if n :| 0 <= n <= |s| && n <= |t| && s[..n] == t[..n] && Slashes(s[n..]) && Slashes(t[n..]) {
      CoreFits(s, a, n);
      CoreFits(t, b, n);
      CoreUnique(s, a, t, b, n);
    }
  }

  lemma SlashAt(s: string, n: nat, i: int)
    requires n <= |s| && Slashes(s[n..])
    ensures n <= i < |s| ==> s[i] == '/'
  {
    if n <= i < |s| {
      assert s[n..][i - n] == s[i];
    }
  }

  lemma CoreFits(s: string, core: string, n: nat)
    requires n <= |s| && core <= s && Slashes(s[n..]) && (core != "" ==> core[|core| - 1] != '/')
    ensures |core| <= n
  {
    SlashAt(s, n, |core| - 1);
  }

  lemma CoreUnique(s: string, a: string, t: string, b: string, n: nat)
    requires n <= |s| && n <= |t| && s[..n] == t[..n]
    requires a <= s && b <= t && |a| <= n && |b| <= n
    requires Slashes(s[|a|..]) && Slashes(t[|b|..])
    requires a != "" ==> a[|a| - 1] != '/'
    requires b != "" ==> b[|b| - 1] != '/'
    ensures a == b
  {
    assert forall i :: 0 <= i < n ==> s[i] == t[i] by {
      assert forall i :: 0 <= i < n ==> s[..n][i] == t[..n][i];
    }
    SlashAt(s, |a|, |b| - 1);
    SlashAt(t, |b|, |a| - 1);
  }

  /** Main result: an auth event passes the check exactly if it proves its pubkey. */
  lemma VerifyMeans(event: Event, challenge: string, relayURL: string, maxAge: int, now: Instant, pubkey: string)
    ensures Verify(event, challenge, relayURL, maxAge, now) == Ok(pubkey) <==>
            Proves(event, challenge, relayURL, maxAge, now, pubkey)
  {
    hide Carries, SameUpToSlashes, TagValue, NormalizeRelayURL;
    TagValueCarried(event.tags, "challenge", challenge);
    var relay := TagValue(event.tags, "relay");
    TagValueCarried(event.tags, "relay", relay);
    NormalizedAlike(relay, relayURL);
    forall other | Carries(event.tags, "relay", other)
      ensures other == relay
    {
      TagValueCarried(event.tags, "relay", other);
    }
  }

  /** What is wrong with an event, and the words for it: the first of its conditions that fails. */
  ghost predicate Flaw(event: Event, challenge: string, relayURL: string, maxAge: int, now: Instant, error: string) {
    var genuine := event.kind == 22242 && event.checks.signature;
    var ours := genuine && Carries(event.tags, "challenge", challenge);
    var there := exists relay :: Carries(event.tags, "relay", relay) && SameUpToSlashes(relay, relayURL);
    || (error == "auth event must be kind 22242" && event.kind != 22242)
    || (error == "auth event signature is invalid" && event.kind == 22242 && !event.checks.signature)
    || (error == "auth event challenge does not match" && genuine && !Carries(event.tags, "challenge", challenge))
    || (error == "auth event relay does not match" && ours && !there)
    || (error == "auth event timestamp is outside allowed age"
        && ours && there && !(now - maxAge <= event.createdAt * SECOND <= now + maxAge))
  }

  /** Every refused event draws the error of its flaw. */
  lemma VerifyRefused(event: Event, challenge: string, relayURL: string, maxAge: int, now: Instant, error: string)
    ensures Verify(event, challenge, relayURL, maxAge, now) == Err(error) <==>
            Flaw(event, challenge, relayURL, maxAge, now, error)
  {
    hide Carries, SameUpToSlashes, TagValue, NormalizeRelayURL;
    TagValueCarried(event.tags, "challenge", challenge);
    var relay := TagValue(event.tags, "relay");
    TagValueCarried(event.tags, "relay", relay);
    NormalizedAlike(relay, relayURL);
    forall other | Carries(event.tags, "relay", other)
      ensures other == relay
    {
      TagValueCarried(event.tags, "relay", other);
    }
  }
}
