/** The two paths `scale_img` formats with `snprintf` into 1024-byte
    buffers: the image it loads and the file it saves. */
module Paths {
  import opened JpgFilter

  const BufferSize: nat := 1024

  /** `snprintf` into a buffer of `BufferSize` bytes keeps the longest
      prefix that leaves room for the terminating NUL. */
  function Snprintf(s: string): (r: string)
    ensures |r| < BufferSize && r <= s
    ensures |s| < BufferSize ==> r == s
    ensures |s| >= BufferSize ==> |r| == BufferSize - 1
  {
    if |s| < BufferSize then s else s[..BufferSize - 1]
  }

  /** "%s/%s": the image to load, a prefix of directory, slash and name
      that is cut to 1023 characters when it does not fit. */
  function InputPath(dir: string, name: string): (path: string)
    ensures path <= dir + "/" + name
    ensures |path| == if |dir| + |name| + 1 < BufferSize then |dir| + |name| + 1 else BufferSize - 1
  {
    Snprintf(dir + "/" + name)
  }

  /** "%s/s_%s": where the resized copy is saved, cut the same way. */
  function OutputPath(dir: string, name: string): (path: string)
    ensures path <= dir + "/s_" + name
    ensures |path| == if |dir| + |name| + 3 < BufferSize then |dir| + |name| + 3 else BufferSize - 1
  {
    Snprintf(dir + "/s_" + name)
  }

  /** The file name of the resized copy. */
  function OutputName(name: string): string
  {
    "s_" + name
  }

  predicate HasOutputPrefix(file: string)
  {
    |file| >= 2 && file[..2] == "s_"
  }

  /** Removes the prefix that names a resized copy. */
  function OriginalName(file: string): string
    requires HasOutputPrefix(file)
  {
    file[2..]
  }

  /** The output path is the input path of the prefixed name, truncation
      included. */
  lemma OutputPathIsPrefixedInput(dir: string, name: string)
    ensures OutputPath(dir, name) == InputPath(dir, OutputName(name))
  {
    assert dir + "/s_" + name == dir + "/" + ("s_" + name);
  }

  /** When the formatted paths fit their buffers, the input path is the
      directory, a slash and the name, and the output path is the same
      directory, a slash and a file name that gives back the input name
      once its "s_" prefix is removed. */
  lemma {:induction false} PathsRoundTrip(dir: string, name: string)
    requires |dir| + |name| + 3 < BufferSize
    ensures InputPath(dir, name)[..|dir| + 1] == dir + "/"
    ensures InputPath(dir, name)[|dir| + 1..] == name
    ensures OutputPath(dir, name)[..|dir| + 1] == dir + "/"
    ensures HasOutputPrefix(OutputPath(dir, name)[|dir| + 1..])
    ensures OriginalName(OutputPath(dir, name)[|dir| + 1..]) == name
  {
    var inp, out := dir + "/" + name, dir + "/s_" + name;
    assert InputPath(dir, name) == inp;
    assert OutputPath(dir, name) == out;
    assert inp[..|dir| + 1] == dir + "/";
    assert inp[|dir| + 1..] == name;
    assert out == (dir + "/") + ("s_" + name);
    assert out[..|dir| + 1] == dir + "/";
    assert out[|dir| + 1..] == "s_" + name;
    assert ("s_" + name)[2..] == name;
  }

  /** When both paths fit, the resized copy never overwrites its source. */
  lemma OutputDiffersFromInput(dir: string, name: string)
    requires |dir| + |name| + 3 < BufferSize
    ensures OutputPath(dir, name) != InputPath(dir, name)
  {
    assert |OutputPath(dir, name)| == |InputPath(dir, name)| + 2;
  }

  /** A path too long for the buffer is cut to exactly 1023 characters. */
  lemma LongPathsAreCut(dir: string, name: string)
    requires |dir| + |name| + 1 >= BufferSize
    ensures |InputPath(dir, name)| == |OutputPath(dir, name)| == BufferSize - 1
    ensures InputPath(dir, name) <= dir + "/" + name
    ensures OutputPath(dir, name) <= dir + "/s_" + name
  {
  }

  /** The resized copy of a JPEG name is itself a JPEG name, and only such
      copies are: a later run over the same directory selects it again. */
  lemma {:induction false} OutputNameSelected(name: string)
    ensures IsJpgName(OutputName(name)) <==> IsJpgName(name)
  {
    var out := OutputName(name);
    assert |out| == |name| + 2;
    if |name| >= 4 {
      assert out[|out| - 4..] == name[|name| - 4..];
    } else if |name| == 3 {
      assert out[|out| - 4..][0] == '_';
    } else if |name| == 2 {
      assert out[|out| - 4..][0] == 's';
    }
  }
}
