/** Both JSON table decoders on the same bytes. */
module JsonBackends {
  import opened Wrappers
  import opened JsonSpec
  import JsonPython
  import JsonNative

  /** The halves of the type name that marks bundle options. */
  const BUNDLE_ASSEMBLY := "Unity.ResourceManager"
  const BUNDLE_CLASS := "UnityEngine.ResourceManagement." + "ResourceProviders." + "AssetBundleRequestOptions"

  lemma BundleNameHasNoSemicolon()
    ensures NoSemicolon(BUNDLE_ASSEMBLY) && NoSemicolon(BUNDLE_CLASS)
  {
    assert NoSemicolon("UnityEngine.ResourceManagement.");
    assert NoSemicolon("ResourceProviders.");
    assert NoSemicolon("AssetBundleRequestOptions");
  }

  /**
   * On all bucket, key, entry and extra bytes: both fail, or both give the same keys in the same order
   * with lists of the same location objects.
   */
  method DecodeBoth(lib: Library, lists: Lists, tables: Tables)
    returns (python: Result<JsonMap>, native: Result<JsonMap>)
    requires lib.bundleAssembly == BUNDLE_ASSEMBLY && lib.bundleClass == BUNDLE_CLASS
    ensures python == native == ResourcesOf(lib, lists, tables)
  {
    hide ResourcesOf;
    BundleNameHasNoSemicolon();
    python := JsonPython.DecodeResources(lib, lists, tables);
    native := JsonNative.Resources(lib, lists, tables);
  }
}
