/** Names of containers (internal/libhive/data.go). */
module ContainerNames {
  import opened Text

  predicate AlphaNumeric(c: char) { 'a' <= c <= 'z' || 'A' <= c <= 'Z' || '0' <= c <= '9' }

  predicate NameChar(c: char) { AlphaNumeric(c) || c == '_' || c == '.' || c == '-' }

  /** The names Docker accepts: [a-zA-Z0-9][a-zA-Z0-9_.-]* */
  predicate DockerName(s: string) {
    s != "" && AlphaNumeric(s[0]) && NameChars(s)
  }

  predicate NameChars(s: string) { forall i | 0 <= i < |s| :: NameChar(s[i]) }

  function Replacement(c: char, first: bool): char {
    if AlphaNumeric(c) then c else if !first && NameChar(c) then c else '-'
  }

  function Replaced(s: string): string { seq(|s|, i requires 0 <= i < |s| => Replacement(s[i], i == 0)) }

  function Sanitized(s: string): string {
    if s == "" then s
    else
      var r := Replaced(s);
      if AlphaNumeric(r[0]) then r else if |r| > 1 then r[1..] else "container"
  }

  method SanitizeContainerNameComponent(s: string) returns (sanitized: string)
    ensures sanitized == Sanitized(s)
  {
    if s == "" {
      return s;
    }
    sanitized := "";
    for i := 0 to |s|
      invariant sanitized == Replaced(s)[..i]
    {
      if AlphaNumeric(s[i]) {
        sanitized := sanitized + [s[i]];
      } else if i > 0 && (s[i] == '_' || s[i] == '.' || s[i] == '-') {
        sanitized := sanitized + [s[i]];
      } else {
        sanitized := sanitized + ['-'];
      }
    }
    if |sanitized| > 0 && !AlphaNumeric(sanitized[0]) {
      if |sanitized| > 1 {
        sanitized := sanitized[1..];
      } else {
        sanitized := "container";
      }
    }
  }

  /** A sanitized component has only admissible characters, but it is a name of its own exactly when one of
      its first two characters is alphanumeric or it is a single character: only one leading dash is dropped. */
  lemma SanitizedIsNameExactly(s: string)
    requires s != ""
    ensures Sanitized(s) != "" && NameChars(Sanitized(s))
    ensures DockerName(Sanitized(s)) <==> AlphaNumeric(s[0]) || |s| == 1 || AlphaNumeric(s[1])
  {
  }

  /** Sanitizing changes nothing exactly for the empty string and for names. */
  lemma SanitizedUnchangedExactly(s: string)
    ensures Sanitized(s) == s <==> s == "" || DockerName(s)
  {
  }

  /** The layout 20060102-150405.000000000 of a time. */
  predicate Timestamp(t: string) {
    |t| == 25 && forall i | 0 <= i < |t| :: if i == 8 then t[i] == '-' else if i == 15 then t[i] == '.' else IsDigit(t[i])
  }

  function NamePrefix(containerType: string, identifier: string): string {
    "xrplhive-" + Sanitized(containerType) + if identifier != "" then "-" + Sanitized(identifier) else ""
  }

  function ContainerName(containerType: string, identifier: string, counter: nat, timestamp: string): string {
    NamePrefix(containerType, identifier) + "-" + Decimal(counter) + "-" + timestamp
  }

  /** The digits at the end of a text. */
  function DigitTail(s: string): (r: string)
    ensures AllDigits(r)
  {
    if s == "" || !IsDigit(s[|s| - 1]) then "" else DigitTail(s[..|s| - 1]) + [s[|s| - 1]]
  }

  /** The counter printed in a name, found from the end. */
  function CounterIn(name: string): nat {
    if |name| < 26 then 0 else Value(DigitTail(name[..|name| - 26]))
  }

  lemma {:induction false} DigitTailOf(prefix: string, digits: string)
    requires AllDigits(digits)
    ensures DigitTail(prefix + "-" + digits) == digits
  {
    var s := prefix + "-" + digits;
    if digits != "" {
      DigitTailOf(prefix, digits[..|digits| - 1]);
      assert s[..|s| - 1] == prefix + "-" + digits[..|digits| - 1];
    }
  }

  lemma CounterReadBack(containerType: string, identifier: string, counter: nat, timestamp: string)
    requires Timestamp(timestamp)
    ensures CounterIn(ContainerName(containerType, identifier, counter, timestamp)) == counter
  {
    var prefix := NamePrefix(containerType, identifier);
    var name := ContainerName(containerType, identifier, counter, timestamp);
    var body := prefix + "-" + Decimal(counter);
    assert name == body + ("-" + timestamp) && |name| - 26 == |body|;
    assert name[..|name| - 26] == body;
    DigitTailOf(prefix, Decimal(counter));
    DecimalRoundTrip(counter);
  }

  /** The sanitized type follows the common prefix, and the sanitized identifier, if there is one, the type; the
      counter and the time end the name. */
  lemma NameHoldsParts(containerType: string, identifier: string, counter: nat, timestamp: string)
    ensures var name, kind, id := ContainerName(containerType, identifier, counter, timestamp), Sanitized(containerType), Sanitized(identifier);
      && "xrplhive-" + kind + "-" <= name
      && (identifier != "" ==> "xrplhive-" + kind + "-" + id + "-" <= name)
      && |name| >= |timestamp| && name[|name| - |timestamp|..] == timestamp
      && |name| == |"xrplhive-"| + |kind| + 1 + (if identifier != "" then |id| + 1 else 0) + |Decimal(counter)| + 1 + |timestamp|
  {
    var name, kind, id := ContainerName(containerType, identifier, counter, timestamp), Sanitized(containerType), Sanitized(identifier);
    var end := Decimal(counter) + "-" + timestamp;
    if identifier != "" {
      assert name == ("xrplhive-" + kind + "-" + id + "-") + end;
      assert name == ("xrplhive-" + kind + "-") + (id + "-" + end);
    } else {
      assert name == ("xrplhive-" + kind + "-") + end;
    }
  }

  /** Each character is kept where it is admissible and becomes a dash where it is not, from the first one on if that
      is alphanumeric and else from the second. */
  lemma SanitizedPointwise(s: string)
    requires |s| > 1
    ensures var skip := if AlphaNumeric(s[0]) then 0 else 1;
      |Sanitized(s)| == |s| - skip && forall i | skip <= i < |s| :: Sanitized(s)[i - skip] == if NameChar(s[i]) then s[i] else '-'
  {
    var skip := if AlphaNumeric(s[0]) then 0 else 1;
    forall i | skip <= i < |s| ensures Sanitized(s)[i - skip] == if NameChar(s[i]) then s[i] else '-' {
      assert Sanitized(s)[i - skip] == Replaced(s)[i];
    }
  }

  lemma PrefixIsAccepted(containerType: string, identifier: string)
    ensures |NamePrefix(containerType, identifier)| >= 9 && NamePrefix(containerType, identifier)[0] == 'x'
    ensures NameChars(NamePrefix(containerType, identifier))
  {
    if containerType != "" { SanitizedIsNameExactly(containerType); }
    if identifier != "" { SanitizedIsNameExactly(identifier); }
  }

  lemma NameIsAccepted(containerType: string, identifier: string, counter: nat, timestamp: string)
    requires Timestamp(timestamp)
    ensures DockerName(ContainerName(containerType, identifier, counter, timestamp))
  {
    PrefixIsAccepted(containerType, identifier);
    var prefix, number := NamePrefix(containerType, identifier), Decimal(counter);
    assert NameChars(number) && NameChars(timestamp);
    assert NameChars(prefix + "-" + number);
  }

  class NameGenerator {
    var counter: nat

    method Generate(containerType: string, identifier: string, timestamp: string) returns (name: string)
      modifies this
      ensures counter == old(counter) + 1
      ensures name == ContainerName(containerType, identifier, counter, timestamp)
    {
      counter := counter + 1;
      var sanitizedType := SanitizeContainerNameComponent(containerType);
      if identifier != "" {
        var sanitizedIdentifier := SanitizeContainerNameComponent(identifier);
        return "xrplhive-" + sanitizedType + "-" + sanitizedIdentifier + "-" + Decimal(counter) + "-" + timestamp;
      }
      name := "xrplhive-" + sanitizedType + "-" + Decimal(counter) + "-" + timestamp;
    }
  }

  datatype Request = Request(containerType: string, identifier: string, timestamp: string)

  /** The names given to a series of requests from a counter value on. */
  function Names(counter: nat, requests: seq<Request>): seq<string> {
    seq(|requests|, i requires 0 <= i < |requests| =>
      ContainerName(requests[i].containerType, requests[i].identifier, counter + i + 1, requests[i].timestamp))
  }

  /** All names of a series are accepted by Docker and pairwise distinct, whatever the types, identifiers and times. */
  lemma NamesAreDistinct(counter: nat, requests: seq<Request>)
    requires forall i | 0 <= i < |requests| :: Timestamp(requests[i].timestamp)
    ensures var names := Names(counter, requests);
      && (forall i | 0 <= i < |names| :: DockerName(names[i]) && CounterIn(names[i]) == counter + i + 1)
      && (forall i, j | 0 <= i < j < |names| :: names[i] != names[j])
  {
    var names := Names(counter, requests);
    forall i | 0 <= i < |names| ensures DockerName(names[i]) && CounterIn(names[i]) == counter + i + 1 {
      var r := requests[i];
      NameIsAccepted(r.containerType, r.identifier, counter + i + 1, r.timestamp);
      CounterReadBack(r.containerType, r.identifier, counter + i + 1, r.timestamp);
    }
  }
}
