/** The immutable metadata value object returned by getMetadata (src/Memory/Metadata.php). */
module MetadataRecord {

  /** Modification time and creation time, both epoch seconds. A datatype value cannot
      be changed after construction, as the readonly PHP properties promise. */
  datatype Metadata = Metadata(mtime: int, ctime: int)
}
