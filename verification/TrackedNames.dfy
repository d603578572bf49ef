/** Names the server has renamed to `<basename>#<id>`. */
module TrackedNames {

  /** The first '#' of `name`, or its length. */
  function Hash(name: string): (i: nat)
    ensures i <= |name| && '#' !in name[..i] && (i < |name| ==> name[i] == '#')
  {
    if name == "" || name[0] == '#' then 0
    else
      assert name == [name[0]] + name[1..];
      assert name[..Hash(name[1..]) + 1] == [name[0]] + name[1..][..Hash(name[1..])];
      Hash(name[1..]) + 1
  }

  /** There is a '#' past the first character. */
  predicate IsRouted(name: string) {
    0 < Hash(name) < |name|
  }

  /** What both the report store and the watcher file an upload under. */
  function UserKey(user: string, name: string): string {
    user + "|" + name
  }
}
