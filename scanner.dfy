/** `count_jpg_files`: the number of JPEG names in a directory. */
module Scanner {
  import opened JpgFilter
  import opened Events

  /** A directory as `g_dir_open` sees it: either it cannot be opened, or
      reading it yields these entry names in enumeration order. */
  datatype Listing = Unopenable | Entries(names: seq<string>)

  /** The value `count_jpg_files` returns for a listing. */
  function JpgCount(listing: Listing): (count: int)
    ensures count == -1 <==> listing.Unopenable?
    ensures listing.Entries? ==> 0 <= count <= |listing.names|
  {
    match listing
    case Unopenable => -1
    case Entries(names) => PositionsLength(names); |Selected(names)|
  }

  function CannotOpenMessage(dir: string): string
  {
    "Cannot open directory: " + dir + "\n"
  }

  /** Returns -1 (after a message on standard error) exactly when the
      directory cannot be opened, and otherwise the number of entries whose
      names are selected. */
  method CountJpgFiles(dir: string, listing: Listing) returns (count: int, diagnostics: seq<Event>)
    ensures count == -1 <==> listing.Unopenable?
    ensures listing.Entries? ==> 0 <= count == |Selected(listing.names)| <= |listing.names|
    ensures diagnostics == if listing.Unopenable? then [Stderr(CannotOpenMessage(dir))] else []
  {
    match listing
    case Unopenable =>
      count, diagnostics := -1, [Stderr(CannotOpenMessage(dir))];
    case Entries(names) =>
      var jpgCount := 0;
      var k := 0;
      while k < |names|
        invariant 0 <= k <= |names|
        invariant jpgCount == |Selected(names[..k])|
      {
        assert names[..k + 1][..k] == names[..k];
        if IsJpgName(names[k]) {
          jpgCount := jpgCount + 1;
        }
        k := k + 1;
      }
      assert names[..|names|] == names;
      PositionsOfSelected(names);
      count, diagnostics := jpgCount, [];
  }
}
