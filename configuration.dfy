/**
 * ZFSL's `Config` record: the source directory, the target directory and the
 * file extension, accepted by the constructor only when the extension is not
 * blank, and the extension with a leading '.' guaranteed.
 */
module Configuration {
  import opened Wrappers
  import opened JavaLang
  import opened Paths

  datatype Config = Config(sourceDirectory: Path, targetDirectory: Path, fileExtension: string)

  /** The exception the compact constructor throws. */
  datatype ConfigError = IllegalArgument(message: string)

  const EmptyExtensionMessage: string := "File extension cannot be empty"

  /** What every constructed `Config` satisfies. */
  predicate Valid(c: Config) {
    !IsBlank(c.fileExtension)
  }

  /**
   * The compact constructor: it stores its arguments unchanged and throws
   * exactly when the extension consists only of characters at most U+0020.
   */
  function NewConfig(sourceDirectory: Path, targetDirectory: Path, fileExtension: string): (r: Result<Config, ConfigError>)
    ensures r.Ok? <==> !IsBlank(fileExtension)
    ensures r.Ok? ==> r.value == Config(sourceDirectory, targetDirectory, fileExtension) && Valid(r.value)
    ensures r.Err? ==> r.error == IllegalArgument(EmptyExtensionMessage)
  {
    TrimEmptyIffBlank(fileExtension);
    if Trim(fileExtension) == [] then
      Err(IllegalArgument(EmptyExtensionMessage))
    else
      Ok(Config(sourceDirectory, targetDirectory, fileExtension))
  }

  predicate StartsWithDot(s: string) {
    |s| > 0 && s[0] == '.'
  }

  /** `s` ends with `suffix`, as `String.endsWith` decides. */
  predicate EndsWith(s: string, suffix: string) {
    |suffix| <= |s| && s[|s| - |suffix|..] == suffix
  }

  /**
   * `normalizedExtension()`: the extension with a '.' put in front when it
   * has none. The result starts with '.' and ends with the stored extension;
   * it is the stored extension itself exactly when that already starts with
   * '.', and one character longer otherwise.
   */
  function NormalizedExtension(c: Config): (r: string)
    ensures StartsWithDot(r)
    ensures EndsWith(r, c.fileExtension)
    ensures r == c.fileExtension <==> StartsWithDot(c.fileExtension)
    ensures !StartsWithDot(c.fileExtension) ==> |r| == |c.fileExtension| + 1
  {
    if StartsWithDot(c.fileExtension) then c.fileExtension else "." + c.fileExtension
  }

  /**
   * No string that starts with '.' and ends with the stored extension is
   * shorter than the normalised extension.
   */
  lemma NormalizedIsShortestDotted(c: Config, t: string)
    requires StartsWithDot(t) && EndsWith(t, c.fileExtension)
    ensures |NormalizedExtension(c)| <= |t|
  {
  }

  /** Normalising an already normalised extension changes nothing. */
  lemma NormalizeIdempotent(c: Config)
    ensures NormalizedExtension(c.(fileExtension := NormalizedExtension(c))) == NormalizedExtension(c)
  {
  }

  /**
   * A `Config` is one the constructor accepts exactly when its normalised
   * extension holds a non-blank character in the part taken from the stored
   * extension, that is, other than a '.' normalisation may have put in front.
   */
  lemma NormalizedOfValidNotBlank(c: Config)
    ensures Valid(c) <==>
      exists i :: |NormalizedExtension(c)| - |c.fileExtension| <= i < |NormalizedExtension(c)|
                  && !IsTrimmable(NormalizedExtension(c)[i])
  {
    var e := c.fileExtension;
    var n := NormalizedExtension(c);
    var off := |n| - |e|;
    assert n[off..] == e;
    if Valid(c) {
      var i :| 0 <= i < |e| && !IsTrimmable(e[i]);
      assert n[off + i] == e[i];
    }
    if exists i :: off <= i < |n| && !IsTrimmable(n[i]) {
      var i :| off <= i < |n| && !IsTrimmable(n[i]);
      assert e[i - off] == n[i];
    }
  }

  /**
   * The constructor does not demand a character after the dot: "." is
   * accepted, and its normalised extension is "." itself, one character long.
   */
  lemma DotAloneAccepted(src: Path, dst: Path)
    ensures NewConfig(src, dst, ".").Ok?
    ensures NormalizedExtension(NewConfig(src, dst, ".").value) == "."
  {
  }

  /**
   * The extension is stored and normalised untrimmed: a leading blank, such
   * as the one in " txt", survives and follows the added '.'.
   */
  lemma UntrimmedExtensionKept(src: Path, dst: Path, e: string)
    requires |e| > 0 && IsTrimmable(e[0]) && !IsBlank(e)
    ensures NewConfig(src, dst, e).Ok?
    ensures NormalizedExtension(NewConfig(src, dst, e).value) == "." + e
    ensures NormalizedExtension(NewConfig(src, dst, e).value)[1] == e[0]
  {
    var r := NewConfig(src, dst, e);
    assert r.value.fileExtension == e;
    assert !StartsWithDot(e) by {
      assert !IsTrimmable('.');
    }
  }
}
