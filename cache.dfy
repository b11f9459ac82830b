/** The on-disk cache of parsed playlists: one file holding, per category,
    the groups `getPlaylist` built. It is read when a session starts if it is
    at most a day old, and written when the session ends if anything was
    parsed. The file is a value here: its modification time and, when it can
    be read back, the store it holds. */
module Cache {
  import opened Text
  import opened M3u

  /** The three playlists the plugin offers, one per way of grouping channels. */
  datatype Category = Country | Genre | Language

  /** `playlists_processed`: per category, the groups parsed so far. */
  type Store = map<Category, Groups>

  /** Every category is present and its groups are a well-formed
      insertion-ordered map: what any store read back from the cache is, since
      it was written from a store that started with every category. */
  predicate StoreOk(s: Store)
  {
    forall c: Category :: c in s && WellFormed(s[c])
  }

  /** The store a session starts with: every category present, with nothing parsed. */
  const EmptyStore: Store := map[Country := NoGroups, Genre := NoGroups, Language := NoGroups]

  /** A session's initial store already meets the invariant. */
  lemma EmptyStoreOk()
    ensures StoreOk(EmptyStore)
  {
    forall c: Category ensures c in EmptyStore && WellFormed(EmptyStore[c]) {
      match c
      case Country =>
      case Genre =>
      case Language =>
    }
  }

  /** Age, in seconds, beyond which the cache is not read. */
  const MaxAge := 86400

  /** The cache file: absent, or present with its modification time and, when
      it unpickles, the store it holds (`None` when reading it fails). */
  datatype CacheFile = Missing | Saved(mtime: int, contents: Option<Store>)

  /** The file is read only when it is not older than `MaxAge` seconds. */
  predicate Fresh(mtime: int, now: int)
  {
    !(mtime < now - MaxAge)
  }

  /** The store a session starts from, given the cache file and the clock:
      the file's store when it is fresh and readable, else `EmptyStore`. A stale
      file is meant to be deleted, but the call that would delete it fails and
      the failure is swallowed, so the file stays where it is. */
  function Load(disk: CacheFile, now: int): (s: Store)
    ensures s == EmptyStore || (disk.Saved? && disk.contents == Some(s))
    ensures (disk.Saved? && disk.contents.Some? ==> StoreOk(disk.contents.value)) ==> StoreOk(s)
  {
    EmptyStoreOk();
    if disk.Saved? && Fresh(disk.mtime, now) && disk.contents.Some? then disk.contents.value
    else EmptyStore
  }

  /** The cache file once a session ends: rewritten, stamped `now`, with the
      whole store when something was parsed during the session, else left as
      it was. */
  function Persist(updated: bool, store: Store, disk: CacheFile, now: int): CacheFile
  {
    if updated then Saved(now, Some(store)) else disk
  }

  /** Without a cache file every category starts empty. */
  lemma NoFileStartsEmpty(now: int)
    ensures Load(Missing, now) == EmptyStore
  {
  }

  /** A file that cannot be read back is ignored. */
  lemma UnreadableIgnored(mtime: int, now: int)
    ensures Load(Saved(mtime, None), now) == EmptyStore
  {
  }

  /** A file exactly `MaxAge` seconds old is still read. */
  lemma ReadAtExactlyMaxAge(store: Store, now: int)
    ensures Load(Saved(now - MaxAge, Some(store)), now) == store
  {
  }

  /** The file is read exactly when its age is at most `MaxAge`. */
  lemma FreshIffAtMostOneDay(mtime: int, now: int)
    ensures Fresh(mtime, now) <==> now - mtime <= MaxAge
  {
  }

  /** A file older than `MaxAge` is ignored, whatever it holds. */
  lemma StaleIgnored(mtime: int, now: int, contents: Option<Store>)
    requires now - mtime > MaxAge
    ensures Load(Saved(mtime, contents), now) == EmptyStore
  {
  }

  /** What a session writes is what the next session reads, if that one
      starts within `MaxAge` seconds. */
  lemma PersistThenLoad(store: Store, disk: CacheFile, saved: int, now: int)
    requires now - saved <= MaxAge
    ensures Load(Persist(true, store, disk, saved), now) == store
  {
  }

  /** A session that parsed nothing leaves the file untouched, so the next
      session reads exactly what this one would have read at the same time. */
  lemma UnchangedWithoutUpdate(store: Store, disk: CacheFile, saved: int, now: int)
    ensures Persist(false, store, disk, saved) == disk
    ensures Load(Persist(false, store, disk, saved), now) == Load(disk, now)
  {
  }
}
