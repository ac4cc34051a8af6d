/** The buffer options of a transcoding profile, as the configuration parser checks them
    (ConfigManager::createTranscodingProfileListFromNodeset). */
module ProfileParser {
  import opened Wrappers

  datatype BufferOptions = BufferOptions(size: nat, chunkSize: nat, fillSize: nat)

  predicate IsInt32(i: int) {
    -0x8000_0000 <= i < 0x8000_0000
  }

  /** The conversion of an int to size_t. */
  function ToSizeT(i: int): (n: nat)
    requires IsInt32(i)
    ensures i >= 0 ==> n == i
    ensures i < 0 ==> n > 0x8000_0000
  {
    if i >= 0 then i else i + 0x1_0000_0000_0000_0000
  }

  /** `index` is the parser's loop variable.  The check of the fill size looks at it instead of the value
      that was just read, so that the conversion has to catch negative values. */
  method ParseBuffer(size: Option<int>, chunk: Option<int>, fill: Option<int>, index: nat)
    returns (options: Result<BufferOptions, string>)
    requires forall o :: o == size || o == chunk || o == fill ==> o.Some? ==> IsInt32(o.value)
    ensures options.Ok? <==> size.Some? && chunk.Some? && fill.Some? &&
                             0 <= chunk.value <= size.value && 0 <= fill.value <= size.value
    ensures options.Ok? ==> options.value == BufferOptions(size.value, chunk.value, fill.value)
    ensures options.Ok? ==>
              options.value.fillSize <= options.value.size && options.value.chunkSize <= options.value.size
    ensures size.Some? && chunk.Some? && fill.Some? && 0 <= chunk.value <= size.value && fill.value < 0 ==>
              options == Err("fill size can not be greater than buffer size")
  {
    if size.None? {
      return Err("missing the size attribute");
    }
    var itmp := size.value;
    if itmp < 0 {
      return Err("buffer size can not be negative");
    }
    var bs := ToSizeT(itmp);
    if chunk.None? {
      return Err("missing the chunk-size attribute");
    }
    itmp := chunk.value;
    if itmp < 0 {
      return Err("chunk size can not be negative");
    }
    var cs := ToSizeT(itmp);
    if cs > bs {
      return Err("chunk size can not be greater than buffer size");
    }
    if fill.None? {
      return Err("missing the fill-size attribute");
    }
    itmp := fill.value;
    var i: int := index;
    if i < 0 {
      return Err("fill size can not be negative");
    }
    var fs := ToSizeT(itmp);
    if fs > bs {
      return Err("fill size can not be greater than buffer size");
    }
    return Ok(BufferOptions(bs, cs, fs));
  }
}
