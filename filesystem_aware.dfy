/**
 * FilesystemAwareTrait: resolving a backend by ident and reading its
 * configuration. `filesystems` is the container of backends and `config` the
 * filesystem configuration (its `connections` array holds one configset per
 * backend ident).
 */
module FilesystemAware {
  import opened PhpValues

  /** `getFilesystem($ident)`: the backend, or `null` when the ident is not in the container. */
  function GetFilesystem<B>(filesystems: map<string, B>, ident: string): (r: Option<B>)
    ensures r.Some? <==> ident in filesystems
    ensures r.Some? ==> r.value == filesystems[ident]
  {
    if ident in filesystems then Some(filesystems[ident]) else None
  }

  /** `hasFilesystem($ident)`. */
  predicate HasFilesystem<B>(filesystems: map<string, B>, ident: string)
    ensures HasFilesystem(filesystems, ident) <==> ident in filesystems
  {
    GetFilesystem(filesystems, ident) != None
  }

  /** `$this->filesystemConfig['connections'][$ident]`. */
  function Connection(config: Value, ident: string): Value
  {
    Lookup(Field(config, "connections"), StrKey(ident))
  }

  /**
   * `getFilesystemConfig($ident)`: `null` for an unknown backend, its
   * configset when one is configured, and the empty array otherwise.
   */
  function GetFilesystemConfig<B>(filesystems: map<string, B>, config: Value, ident: string): (r: Value)
    ensures ident !in filesystems <==> r == Null
    ensures ident in filesystems && IsSet(Connection(config, ident)) ==> r == Connection(config, ident)
    ensures ident in filesystems && !IsSet(Connection(config, ident)) ==> r == Arr([])
  {
    if !HasFilesystem(filesystems, ident) then Null
    else if IsSet(Connection(config, ident)) then Connection(config, ident)
    else Arr([])
  }

  /**
   * `isFilesystemPublic($ident)`: false for an unknown backend, or when its
   * configset's `public` is the boolean `false`; true otherwise.
   */
  predicate IsFilesystemPublic<B>(filesystems: map<string, B>, config: Value, ident: string)
  {
    if !HasFilesystem(filesystems, ident) then false
    else
      var conf := GetFilesystemConfig(filesystems, config, ident);
      !(IsSet(Field(conf, "public")) && Field(conf, "public") == Bool(false))
  }

  /**
   * Only an explicit boolean `false` makes a known backend private: a missing
   * `public` entry, or a falsy non-boolean such as `0`, `""` or `null`,
   * leaves it public.
   */
  lemma PublicUnlessStrictlyFalse<B>(filesystems: map<string, B>, config: Value, ident: string)
    ensures IsFilesystemPublic(filesystems, config, ident) <==>
      ident in filesystems && Field(GetFilesystemConfig(filesystems, config, ident), "public") != Bool(false)
    ensures ident in filesystems && !IsSet(Connection(config, ident)) ==>
      IsFilesystemPublic(filesystems, config, ident)
  {
  }
}
