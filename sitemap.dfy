/**
  Manual URL entry: the pasted text is cut into lines and every line that,
  once trimmed, is a non-empty http or https URL is kept.
*/
module Sitemap {
  import opened Types
  import opened Text
  import opened Seqs

  /**
    `isValidUrl`. The URL parser is not modelled: `protocolOf(s)` is the
    protocol it reports for `s`, or `None` when it rejects `s`. A string is
    valid when the protocol is `http:` or `https:`.
  */
  predicate IsValidUrl(s: string, protocolOf: string -> Option<string>)
  {
    protocolOf(s) == Some("http:") || protocolOf(s) == Some("https:")
  }

  /** What the loop makes of one line: its trimmed form when that is a non-empty valid URL, otherwise nothing. */
  function Pick(line: string, protocolOf: string -> Option<string>): (r: Option<string>)
    ensures r.Some? ==> r.value == Trim(line) && r.value != "" && IsTrimmed(r.value) && IsValidUrl(r.value, protocolOf)
    ensures r.None? ==> Trim(line) == "" || !IsValidUrl(Trim(line), protocolOf)
  {
    var trimmed := Trim(line);
    if trimmed != "" && IsValidUrl(trimmed, protocolOf) then Some(trimmed) else None
  }

  /** `Pick` for a fixed URL parser, as a value. */
  function Picker(protocolOf: string -> Option<string>): string -> Option<string>
  {
    line => Pick(line, protocolOf)
  }

  /** Of the given lines, exactly the trimmed, non-empty, valid ones are picked. */
  lemma PickedLines(lines: seq<string>, protocolOf: string -> Option<string>)
    ensures var urls := FilterMap(lines, Picker(protocolOf));
      forall j :: 0 <= j < |urls| ==> urls[j] != "" && IsTrimmed(urls[j]) && IsValidUrl(urls[j], protocolOf)
    ensures forall i :: 0 <= i < |lines| && Trim(lines[i]) != "" && IsValidUrl(Trim(lines[i]), protocolOf) ==>
      Trim(lines[i]) in FilterMap(lines, Picker(protocolOf))
  {
    var urls := FilterMap(lines, Picker(protocolOf));
    FilterMapOrigin(lines, Picker(protocolOf));
    FilterMapKeeps(lines, Picker(protocolOf));
    forall i | 0 <= i < |lines| && Trim(lines[i]) != "" && IsValidUrl(Trim(lines[i]), protocolOf)
      ensures Trim(lines[i]) in urls
    {
      assert Picker(protocolOf)(lines[i]) == Some(Trim(lines[i]));
    }
    forall j | 0 <= j < |urls|
      ensures urls[j] != "" && IsTrimmed(urls[j]) && IsValidUrl(urls[j], protocolOf)
    {
      var i :| 0 <= i < |lines| && Picker(protocolOf)(lines[i]) == Some(urls[j]);
      assert Pick(lines[i], protocolOf) == Some(urls[j]);
    }
  }

  /** `extractUrlsFromText`: the text is split on `\n` only, and each kept line is pushed in turn. */
  method ExtractUrlsFromText(text: string, protocolOf: string -> Option<string>) returns (urls: seq<string>)
    ensures urls == FilterMap(Split(text, '\n'), Picker(protocolOf))
    ensures |urls| <= Occurrences(text, '\n') + 1
    ensures forall j :: 0 <= j < |urls| ==> urls[j] != "" && IsTrimmed(urls[j]) && IsValidUrl(urls[j], protocolOf)
    ensures var lines := Split(text, '\n');
      forall i :: 0 <= i < |lines| && Trim(lines[i]) != "" && IsValidUrl(Trim(lines[i]), protocolOf) ==>
        Trim(lines[i]) in urls
    ensures text == "" ==> urls == []
  {
    var lines := Split(text, '\n');
    urls := [];
    for i := 0 to |lines|
      invariant urls == FilterMap(lines[..i], Picker(protocolOf))
    {
      assert lines[..i + 1][..i] == lines[..i];
      var trimmed := Trim(lines[i]);
      if trimmed != "" && IsValidUrl(trimmed, protocolOf) {
        urls := urls + [trimmed];
      }
    }
    assert lines[..|lines|] == lines;
    SplitCount(text, '\n');
    PickedLines(lines, protocolOf);
    if text == "" {
      assert lines == [""];
    }
  }
}
