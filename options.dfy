/**
 * The serializer's `attrs` table: the per-key serialize toggle and the
 * key-rename lookup, shared by every writer.
 */
module AttrsTable {
  import opened FirebaseTypes

  /** `_canSerialize`: a key is skipped exactly when its `attrs` entry says `serialize: false`. */
  function CanSerialize(attrs: map<string, AttrOption>, key: string): (r: bool)
    ensures !r <==> key in attrs && attrs[key].Options? && attrs[key].serialize == Some(false)
  {
    if key !in attrs then true
    else match attrs[key]
      // a string has no `serialize` member, so `attrs[key].serialize !== false` holds
      case Rename(_) => true
      case Options(_, serialize) => serialize != Some(false)
  }

  /**
   * `_getMappedKey`: the rename declared for `key` in either form, or `key`
   * itself. An empty string is falsy, so an empty rename is ignored. The
   * source's `modelClass` argument is never read and is not a parameter here.
   */
  function GetMappedKey(attrs: map<string, AttrOption>, key: string): (r: string)
    ensures key in attrs && attrs[key].Rename? && attrs[key].name != "" ==> r == attrs[key].name
    ensures key in attrs && attrs[key].Options? && attrs[key].key.KeyName? && attrs[key].key.name != "" ==> r == attrs[key].key.name
    ensures r == key || (key in attrs && r != "" && (attrs[key] == Rename(r) || (attrs[key].Options? && attrs[key].key == KeyName(r))))
  {
    if key !in attrs then key
    else match attrs[key]
      case Rename(name) => if name != "" then name else key
      case Options(KeyName(name), _) => if name != "" then name else key
      case Options(_, _) => key
  }

  /**
   * The payload key every writer computes: the `attrs` rename when it differs
   * from `key`, otherwise the inherited key-naming hook's answer `fallback`.
   */
  function PayloadKey(attrs: map<string, AttrOption>, key: string, fallback: string): (r: string)
    ensures key !in attrs ==> r == fallback
    ensures key in attrs && attrs[key].Rename? && attrs[key].name != "" && attrs[key].name != key ==> r == attrs[key].name
    ensures key in attrs && attrs[key].Options? && attrs[key].key.KeyName? && attrs[key].key.name != "" && attrs[key].key.name != key ==> r == attrs[key].key.name
    ensures key in attrs && attrs[key].Options? && !attrs[key].key.KeyName? ==> r == fallback
    ensures r == fallback || (key in attrs && r != key && r != "" && (attrs[key] == Rename(r) || (attrs[key].Options? && attrs[key].key == KeyName(r))))
  {
    var mapped := GetMappedKey(attrs, key);
    if mapped == key then fallback else mapped
  }
}
