/** Image references as the handlers treat them: an image is stored by its URL,
    and the image host is later addressed by the public id read back out of it. */
module Images {
  import Text

  /** `url.split("/").pop().split(".")[0]`: the last path segment of the URL up to
      its first dot. */
  function PublicId(url: string): (r: string)
    ensures '/' !in r && '.' !in r
    ensures r <= Text.AfterLast(url, '/')
  {
    Text.BeforeFirst(Text.AfterLast(url, '/'), '.')
  }

  /** The public id is exactly the file name of the last segment: for a URL ending in
      `/<name>.<extension>` where the name holds no dot and the extension no slash,
      it is `<name>`. */
  lemma PublicIdOfFileName(prefix: string, name: string, extension: string)
    requires '.' !in name && '/' !in name && '/' !in extension
    ensures PublicId(prefix + "/" + name + "." + extension) == name
  {
    var last := name + "." + extension;
    assert prefix + "/" + name + "." + extension == prefix + ['/'] + last;
    Text.AfterLastOfJoin(prefix, '/', last);
    assert last == name + ['.'] + extension;
    Text.BeforeFirstOfJoin(name, '.', extension);
  }
}
