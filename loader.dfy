/** `dataGrabber`: read the lines of a USGS geomagnetism file, normalise each
    one and accept the dataset only when its first line is the expected header.
    Reading the file is not modelled: each line arrives already cut into the
    fields that the space-delimited reader produced. */
module Loader {
  import opened Wrappers
  import opened Text

  /** The words of the only header a valid geomagnetism file may have. */
  const HeaderWords: seq<string> :=
    ["Year", "Mon", "Day", "Hr", "DOY", "from", "start", "Fractional", "DOY",
     "Fractional", "year", "Dst", "HER", "KAK", "HON", "SJG", "sigma"]

  /** The header as the normalised first line must read: the words above with
      one space between neighbours,
      `Year Mon Day Hr DOY from start Fractional DOY Fractional year Dst HER KAK HON SJG sigma`.
      That this join is the header literal of the original is checked by
      inspection, not proved: an equation with an 86-character literal is
      beyond what the verifier settles cheaply. */
  const Header: string := Join(HeaderWords)

  /** One line as it is stored in the dataset: its fields re-joined with single
      spaces and every run of spaces collapsed to one. */
  function Normalize(fields: seq<string>): (line: string)
    ensures NoDoubleSpaces(line)
    ensures NonSpaces(line) == NonSpaces(Join(fields))
  {
    CollapseKeepsNonSpaces(Join(fields));
    Collapse(Join(fields))
  }

  /** Builds the dataset one normalised line per input line, then accepts it
      only when it is non-empty and starts with the header. */
  method Grab(lines: seq<seq<string>>) returns (dataset: Option<seq<string>>)
    ensures dataset.Some? <==> |lines| > 0 && Normalize(lines[0]) == Header
    ensures dataset.Some? ==> |dataset.value| == |lines| && dataset.value[0] == Header
    ensures dataset.Some? ==>
      forall i :: 0 <= i < |lines| ==> dataset.value[i] == Normalize(lines[i])
  {
    var rows: seq<string> := [];
    for i := 0 to |lines|
      invariant |rows| == i
      invariant forall k :: 0 <= k < i ==> rows[k] == Normalize(lines[k])
    {
      var textRow := Join(lines[i]);
      var cleanRow := Collapse(textRow);
      rows := rows + [cleanRow];
    }
    if |rows| < 1 {
      return None;
    }
    if rows[0] == Header {
      return Some(rows);
    }
    return None;
  }

  /** The header has no doubled space, so normalisation keeps it, and a first
      line made of the header's words normalises to the header. */
  lemma HeaderIsNormal()
    ensures Collapse(Header) == Header
    ensures Normalize(HeaderWords) == Header
    ensures Split(Header) == HeaderWords
  {
    NormalizeClean(HeaderWords);
  }

  /** A header line with one extra space between two of its words is
      accepted as well. */
  lemma PaddedHeaderAccepted(k: nat)
    requires 0 < k < |HeaderWords|
    ensures Normalize(HeaderWords[..k] + [""] + HeaderWords[k..]) == Header
  {
    EmptyFieldIgnored(HeaderWords[..k], HeaderWords[k..]);
    assert HeaderWords[..k] + HeaderWords[k..] == HeaderWords;
    HeaderIsNormal();
  }

  /** An empty field between two non-empty runs of fields (a doubled space in
      the file) does not change the normalised line, so a header padded this
      way is still accepted. */
  lemma {:induction false} EmptyFieldIgnored(a: seq<string>, b: seq<string>)
    requires |a| >= 1 && |b| >= 1
    ensures Normalize(a + [""] + b) == Normalize(a + b)
  {
    JoinAppend(a + [""], b);
    JoinAppend(a, [""]);
    JoinAppend(a, b);
    assert Join(a + [""] + b) == Join(a) + [Space, Space] + Join(b);
    CollapseExtraSpace(Join(a), Join(b));
  }

  /** Fields that are non-empty and hold no space pass through normalisation
      unchanged, and splitting the stored line gives them back. */
  lemma NormalizeClean(fields: seq<string>)
    requires |fields| >= 1
    requires forall i :: 0 <= i < |fields| ==> |fields[i]| > 0 && Space !in fields[i]
    ensures Normalize(fields) == Join(fields)
    ensures Split(Normalize(fields)) == fields
  {
    JoinClean(fields);
    CollapseFixedPoints(Join(fields));
    SplitJoin(fields);
  }

  lemma {:induction false} JoinClean(fields: seq<string>)
    requires |fields| >= 1
    requires forall i :: 0 <= i < |fields| ==> |fields[i]| > 0 && Space !in fields[i]
    ensures NoDoubleSpaces(Join(fields))
    ensures |Join(fields)| > 0 && Join(fields)[0] != Space
  {
    if |fields| > 1 {
      JoinClean(fields[1..]);
      var head, tail := fields[0], Join(fields[1..]);
      var s := head + [Space] + tail;
      assert Join(fields) == s;
      forall i | 0 <= i < |s| - 1
        ensures !(s[i] == Space && s[i + 1] == Space)
      {
        if i < |head| {
          assert s[i] == head[i];
        } else if i == |head| {
          assert s[i + 1] == tail[0];
        } else {
          assert s[i] == tail[i - |head| - 1] && s[i + 1] == tail[i - |head|];
        }
      }
    }
  }
}
