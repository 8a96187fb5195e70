/**
 * Repetition counts exported to text files. A motion sequence that exports
 * its count writes the decimal count to its file after every counted
 * completion, and on configuration import the count is read back from the
 * file. The disk is a map from path to file contents.
 */
module RepFile {
  import opened Common
  import opened Text

  /** The text files on disk, keyed by path. */
  type FileSystem = map<string, string>

  /** The count stored in a file's contents: the stripped text if it is all digits, else 0. */
  function ParseReps(content: string): nat
  {
    var t := Strip(content);
    if IsDigitString(t) then DigitsValue(t) else 0
  }

  /**
   * `_read_reps_from_file`: 0 when no path is set or the file does not exist,
   * otherwise the count its contents hold.
   */
  function ReadRepsFromFile(files: FileSystem, path: Option<string>): (n: nat)
    ensures !Truthy(path) ==> n == 0
    ensures Truthy(path) && path.value !in files ==> n == 0
    ensures Truthy(path) && path.value in files && Strip(files[path.value]) == "" ==> n == 0
  {
    if !Truthy(path) || path.value !in files then 0 else ParseReps(files[path.value])
  }

  /**
   * `_write_reps_to_file`: nothing is written while a configuration is being
   * loaded or when no path is set; otherwise the file holds `str(count)`.
   */
  function WriteRepsToFile(files: FileSystem, path: Option<string>, count: nat, initializing: bool): FileSystem
  {
    if initializing || !Truthy(path) then files
    else files[path.value := NatToString(count)]
  }

  /**
   * Writing changes nothing while initializing or without a path; otherwise
   * it touches only the file at the path, which then reads back as the count.
   */
  lemma WriteThenRead(files: FileSystem, path: Option<string>, count: nat, initializing: bool)
    ensures var r := WriteRepsToFile(files, path, count, initializing);
            (initializing || !Truthy(path) ==> r == files)
            && (!initializing && Truthy(path) ==> path.value in r && ReadRepsFromFile(r, path) == count)
            && (forall p :: p in files && (initializing || !Truthy(path) || p != path.value) ==> p in r && r[p] == files[p])
  {
    if !initializing && Truthy(path) {
      var text := NatToString(count);
      assert Strip(text) == text;
    }
  }

  /** A count surrounded by whitespace (a trailing newline, say) still reads as that count. */
  lemma {:induction false} ParsePaddedCount(lead: string, count: nat, trail: string)
    requires forall k :: 0 <= k < |lead| ==> IsSpace(lead[k])
    requires forall k :: 0 <= k < |trail| ==> IsSpace(trail[k])
    ensures ParseReps(lead + NatToString(count) + trail) == count
  {
    var text := NatToString(count);
    StripPadded(lead, text, trail);
  }

  /**
   * A file holding any character that is neither a digit nor whitespace
   * (a sign, a decimal point, a letter) reads as 0.
   */
  lemma NonNumericReadsZero(files: FileSystem, path: Option<string>, k: nat)
    requires Truthy(path) && path.value in files
    requires k < |files[path.value]| && !IsDigit(files[path.value][k]) && !IsSpace(files[path.value][k])
    ensures ReadRepsFromFile(files, path) == 0
  {
    StripKeepsInnerText(files[path.value], k);
  }

  /** Stripping removes exactly the padding around a text with no whitespace. */
  lemma StripPadded(lead: string, text: string, trail: string)
    requires forall k :: 0 <= k < |lead| ==> IsSpace(lead[k])
    requires forall k :: 0 <= k < |trail| ==> IsSpace(trail[k])
    requires |text| > 0 && forall k :: 0 <= k < |text| ==> !IsSpace(text[k])
    ensures Strip(lead + text + trail) == text
  {
    TrimStartSkipsSpaces(lead, text + trail);
    assert lead + text + trail == lead + (text + trail);
    TrimEndSkipsSpaces(text, trail);
  }

  lemma {:induction false} TrimStartSkipsSpaces(lead: string, rest: string)
    requires forall k :: 0 <= k < |lead| ==> IsSpace(lead[k])
    requires |rest| > 0 && !IsSpace(rest[0])
    ensures TrimStart(lead + rest) == rest
  {
    if |lead| > 0 {
      assert (lead + rest)[1..] == lead[1..] + rest;
      TrimStartSkipsSpaces(lead[1..], rest);
    }
  }

  lemma {:induction false} TrimEndSkipsSpaces(body: string, trail: string)
    requires forall k :: 0 <= k < |trail| ==> IsSpace(trail[k])
    requires |body| > 0 && !IsSpace(body[|body| - 1])
    ensures TrimEnd(body + trail) == body
  {
    if |trail| > 0 {
      var shorter := trail[..|trail| - 1];
      assert (body + trail)[..|body + trail| - 1] == body + shorter;
      TrimEndSkipsSpaces(body, shorter);
    } else {
      assert body + trail == body;
    }
  }
}
