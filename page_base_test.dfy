/** The cases of page/base_test.go, stated about `Base`. */
module PageBaseTest {
  import opened PageBase

  /** "/blah/blah your mom/file.xyz": a Unix path with spaces in a directory name. */
  lemma BaseExampleUnix(dir: string, stem: string, ext: string)
    requires dir == "/blah/blah your mom" && stem == "file" && ext == "xyz"
    ensures Base(dir + "/" + (stem + "." + ext)) == "file"
  {
    BaseOfFile(dir, '/', stem, ext);
  }

  /** "C:\Test\correct.ext": a Windows path. */
  lemma BaseExampleWindows(dir: string, stem: string, ext: string)
    requires dir == "C:\\Test" && stem == "correct" && ext == "ext"
    ensures Base(dir + "\\" + (stem + "." + ext)) == "correct"
  {
    BaseOfFile(dir, '\\', stem, ext);
  }

  /** "/dir/slash.xyz/": a trailing slash is ignored. */
  lemma BaseExampleTrailingSlash(dir: string, stem: string, ext: string)
    requires dir == "/dir" && stem == "slash" && ext == "xyz"
    ensures Base(dir + "/" + (stem + "." + ext) + "/") == "slash"
  {
    BaseOfFile(dir, '/', stem, ext);
    TrailingIgnored(dir + "/" + (stem + "." + ext), '/');
  }

  /** The empty path and a path of slashes have the empty base. */
  lemma BaseExampleEmpty()
    ensures Base("") == ""
    ensures Base("///") == ""
  {
    OnlySlashesBase("///");
  }
}
