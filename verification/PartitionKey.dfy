/** The partition key `pb:<service>:<trace>:<timestamp>`, printed by the publisher
    (internal/streaming/publisher.go) and parsed by the consumer
    (internal/consumer/kinesis_consumer.go). */
module PartitionKey {
  import opened Text

  /** The timestamp is printed in decimal; nothing below depends on how. */
  function Print(service: string, trace: string, timestamp: string): string {
    "pb:" + service + ":" + trace + ":" + timestamp
  }

  /** The test by which the consumer tells protobuf records from JSON ones. */
  predicate IsProtobuf(key: string) { HasPrefix(key, "pb:") }

  datatype Parsed = MissingPrefix | MissingService | Parsed(service: string, trace: string)

  function Parse(key: string): Parsed {
    if !IsProtobuf(key) then MissingPrefix
    else
      var (service, remaining, found) := Cut(key[3..], ":");
      if !found then MissingService
      else
        var (trace, _, _) := Cut(remaining, ":");
        Parsed(service, trace)
  }

  /** What lies before the first colon. */
  function UpToColon(s: string): string { Cut(s, ":").0 }

  lemma CutPrinted(before: string, behind: string)
    ensures ':' !in before ==> Cut(before + ":" + behind, ":") == (before, behind, true)
    ensures ':' in before ==>
      var (a, b, found) := Cut(before + ":" + behind, ":");
      a == UpToColon(before) && |a| < |before| && found
  {
    var s := before + ":" + behind;
    if ':' !in before {
      IndexOfChar(before, ':', behind);
      assert s[..|before|] == before && s[|before| + 1..] == behind;
    } else {
      IndexOfAbsentChar(before, ':');
      IndexIsLeast(before, ":");
      var i := Index(before, ":");
      SingleOccurs(before, ':', i);
      var a := before[..i];
      forall k | 0 <= k < |a| ensures a[k] != ':' {
        SingleOccurs(before, ':', k);
        assert !OccursAt(before, ":", k);
      }
      assert s == a + [':'] + s[i + 1..];
      IndexOfChar(a, ':', s[i + 1..]);
    }
  }

  lemma CutIs(s: string)
    ensures var (a, rest, found) := Cut(s, ":");
      && ':' !in a && (found <==> ':' in s)
      && s == if found then a + ":" + rest else a
  {
    IndexOfAbsentChar(s, ':');
    FirstOfChar(s, ':');
    CutParts(s, ":");
  }

  lemma CutUnique(s: string, a: string, rest: string)
    requires s == a + ":" + rest && ':' !in a
    ensures Cut(s, ":") == (a, rest, true)
  {
    CutPrinted(a, rest);
  }

  /** The key reads so up to its end or to a further colon. */
  ghost predicate Reads(key: string, service: string, trace: string) {
    && ':' !in service && ':' !in trace
    && (key == "pb:" + service + ":" + trace || exists more :: key == "pb:" + service + ":" + trace + ":" + more)
  }

  lemma ParsedReads(key: string)
    requires Parse(key).Parsed?
    ensures Reads(key, Parse(key).service, Parse(key).trace)
  {
    assert key == key[0..3] + key[3..];
    CutIs(key[3..]);
    var (service, remaining, _) := Cut(key[3..], ":");
    CutIs(remaining);
    var (trace, more, found) := Cut(remaining, ":");
    hide Cut, Index;
    assert key == "pb:" + (service + ":" + remaining);
    if found {
      Regroup(service, trace, more);
    } else {
      RegroupShort(service, trace);
    }
  }

  lemma Regroup(service: string, trace: string, more: string)
    ensures "pb:" + (service + ":" + (trace + ":" + more)) == "pb:" + service + ":" + trace + ":" + more
  {
  }

  lemma RegroupShort(service: string, trace: string)
    ensures "pb:" + (service + ":" + trace) == "pb:" + service + ":" + trace
  {
  }

  lemma ReadsParsed(key: string, service: string, trace: string)
    requires Reads(key, service, trace)
    ensures Parse(key) == Parsed(service, trace)
  {
    if key == "pb:" + service + ":" + trace {
      assert key[0..3] == "pb:" && key[3..] == service + ":" + trace;
      CutUnique(key[3..], service, trace);
      CutIs(trace);
    } else {
      var more :| key == "pb:" + service + ":" + trace + ":" + more;
      var rest := trace + ":" + more;
      assert key[0..3] == "pb:" && key[3..] == service + ":" + rest;
      CutUnique(key[3..], service, rest);
      CutUnique(rest, trace, more);
    }
  }

  /** What each key parses to: nothing without the prefix, nothing without a colon behind it, and else the
      two fields before the next colons, the second of which may be missing. */
  lemma ParseIff(key: string, service: string, trace: string)
    ensures Parse(key) == MissingPrefix <==> |key| < 3 || key[..3] != "pb:"
    ensures Parse(key) == MissingService <==> |key| >= 3 && key[..3] == "pb:" && ':' !in key[3..]
    ensures Parse(key) == Parsed(service, trace) <==> Reads(key, service, trace)
  {
    if |key| >= 3 {
      assert key[0..3] == key[..3];
      CutIs(key[3..]);
    }
    if Parse(key) == Parsed(service, trace) {
      ParsedReads(key);
    }
    if Reads(key, service, trace) {
      ReadsParsed(key, service, trace);
    }
  }

  /** Every printed key is recognised and parsed; service and trace come back exactly when
      neither contains a colon (an empty trace does). */
  lemma RoundTripIff(service: string, trace: string, timestamp: string)
    ensures IsProtobuf(Print(service, trace, timestamp)) && Parse(Print(service, trace, timestamp)).Parsed?
    ensures Parse(Print(service, trace, timestamp)) == Parsed(service, trace) <==> ':' !in service && ':' !in trace
  {
    var key := Print(service, trace, timestamp);
    var rest := trace + ":" + timestamp;
    assert key[0..3] == "pb:" && key[3..] == service + ":" + rest;
    CutPrinted(service, rest);
    CutPrinted(trace, timestamp);
  }
}
