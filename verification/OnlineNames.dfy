/** Names under which the core counts who is online: a fixed prefix and suffix around an email address. */
module OnlineNames {
  import opened Model

  const PREFIX := "user>>>"
  const SUFFIX := ">>>online"

  predicate HasSuffix(name: string, suffix: string) {
    |suffix| <= |name| && name[|name| - |suffix|..] == suffix
  }

  function TrimPrefix(name: string, prefix: string): string {
    if prefix <= name then name[|prefix|..] else name
  }

  function TrimSuffix(name: string, suffix: string): string {
    if HasSuffix(name, suffix) then name[..|name| - |suffix|] else name
  }

  function NameOf(email: string): string {
    PREFIX + email + SUFFIX
  }

  function EmailFromOnlineStatName(name: string): Option<string> {
    if !(PREFIX <= name) || !HasSuffix(name, SUFFIX) then None
    else
      var email := TrimSuffix(TrimPrefix(name, PREFIX), SUFFIX);
      if email == "" then None else Some(email)
  }

  /** What is left of the three names in which prefix and suffix share some of their `>` characters. */
  predicate IsOverlap(email: string) {
    email == "online" || email == ">online" || email == ">>online"
  }

  lemma LongNames(name: string, email: string)
    requires |name| >= |PREFIX| + |SUFFIX|
    ensures EmailFromOnlineStatName(name) == Some(email) <==> email != "" && name == NameOf(email)
  {
    if PREFIX <= name && HasSuffix(name, SUFFIX) {
      var middle := name[|PREFIX|..|name| - |SUFFIX|];
      assert name == NameOf(middle);
      assert TrimSuffix(TrimPrefix(name, PREFIX), SUFFIX) == middle;
    }
    if name == NameOf(email) {
      assert TrimSuffix(TrimPrefix(name, PREFIX), SUFFIX) == email;
    }
  }

  lemma ShortNames(name: string, email: string)
    requires |name| < |PREFIX| + |SUFFIX|
    ensures EmailFromOnlineStatName(name) == Some(email) <==> name == PREFIX + email && IsOverlap(email)
  {
    if PREFIX <= name && HasSuffix(name, SUFFIX) {
      var start := |name| - |SUFFIX|;
      assert name == PREFIX + name[|PREFIX|..];
      assert name[start] == SUFFIX[0];
      assert start >= 4;
      assert name[|PREFIX|..] == SUFFIX[|PREFIX| - start..];
    }
  }

  /** Exactly which names are accepted, and as what: an address between prefix and suffix, or one of the
      three short names in which the two overlap. */
  lemma AcceptedNames(name: string, email: string)
    ensures EmailFromOnlineStatName(name) == Some(email)
       <==> (email != "" && name == NameOf(email)) || (name == PREFIX + email && IsOverlap(email))
  {
    if |name| >= |PREFIX| + |SUFFIX| {
      LongNames(name, email);
    } else {
      ShortNames(name, email);
    }
  }

  /** Two names are read as the same address only for the three overlapping ones. */
  lemma SharedAddress(a: string, b: string, email: string)
    requires a != b
    requires EmailFromOnlineStatName(a) == EmailFromOnlineStatName(b) == Some(email)
    ensures IsOverlap(email) && {a, b} == {PREFIX + email, NameOf(email)}
  {
    AcceptedNames(a, email);
    AcceptedNames(b, email);
  }

  lemma RoundTrip(email: string)
    ensures EmailFromOnlineStatName(NameOf(email)) == if email == "" then None else Some(email)
  {
    AcceptedNames(NameOf(email), email);
    assert TrimPrefix(NameOf(""), PREFIX) == SUFFIX;
  }

  /** Both laws in the core's own spelling. */
  lemma SpelledNames(name: string, email: string)
    ensures NameOf(email) == "user>>>" + email + ">>>online"
    ensures EmailFromOnlineStatName("user>>>" + email + ">>>online") == if email == "" then None else Some(email)
    ensures EmailFromOnlineStatName(name) == Some(email)
       <==> || (email != "" && name == "user>>>" + email + ">>>online")
            || (name == "user>>>" + email && email in {"online", ">online", ">>online"})
  {
    AcceptedNames(name, email);
    RoundTrip(email);
    hide EmailFromOnlineStatName;
  }
}
