/** `Jcp_NUMPY_ARRAY_CONVERT`: the body shared by the converters from a Java
    primitive array to a one-dimensional numpy array. A NULL array becomes
    Python's None; if numpy cannot be initialised the converter returns NULL
    (with the Python error set) before allocating anything; otherwise it
    allocates a one-element `dims` buffer, creates an array of that shape,
    copies the Java array's elements `[0, length)` into it, frees `dims` and
    returns the array. */
module NumpyConvert {
  import opened Wrappers

  /** The numpy element types the six converters pass. */
  datatype NpyType = NpyBool | NpyShort | NpyInt | NpyLong | NpyFloat | NpyDouble

  /** A numpy array: its element type, its shape and its elements. */
  datatype NdArray<T> = NdArray(dtype: NpyType, dims: seq<int>, data: seq<T>)

  /** What the converter returns: Python's None, NULL (error), or an array. */
  datatype PyResult<T> = PyNone | PyNull | PyArray(nd: NdArray<T>)

  /** The side effects of the converter, in order. */
  datatype Effect =
    | InitNumpy
    | MallocDims
    | NewArray
    | CopyRegion(start: int, len: int)
    | FreeDims

  function CountOf(effects: seq<Effect>, e: Effect): nat
  {
    multiset(effects)[e]
  }

  /** `Get<Type>ArrayRegion`: copies `len` elements of `src` starting at
      `start` into the front of `buf`. A region outside the array raises
      `ArrayIndexOutOfBoundsException` in the JVM (None here) and writes
      nothing. The buffer must have room for `len` elements, as in C. */
  method GetArrayRegion<T>(src: seq<T>, start: int, len: int, buf: seq<T>) returns (out: Option<seq<T>>)
    requires len <= |buf|
    ensures out.Some? <==> 0 <= start && 0 <= len && start + len <= |src|
    ensures out.Some? ==> |out.value| == |buf|
    ensures out.Some? ==> forall k :: 0 <= k < len ==> out.value[k] == src[start + k]
    ensures out.Some? ==> forall k :: len <= k < |buf| ==> out.value[k] == buf[k]
  {
    if start < 0 || len < 0 || start + len > |src| {
      return None;
    }
    var copied := buf;
    var k := 0;
    while k < len
      invariant 0 <= k <= len
      invariant |copied| == |buf|
      invariant forall j :: 0 <= j < k ==> copied[j] == src[start + j]
      invariant forall j :: k <= j < |buf| ==> copied[j] == buf[j]
    {
      copied := copied[k := src[start + k]];
      k := k + 1;
    }
    return Some(copied);
  }

  /** The converter. `value` is the Java array (None for NULL), `numpyReady`
      whether `init_numpy()` succeeds, and `garbage` the contents of freshly
      allocated, uninitialised array memory. */
  method NumpyArrayConvert<T>(value: Option<seq<T>>, numpyReady: bool, dtype: NpyType, garbage: T)
    returns (r: PyResult<T>, effects: seq<Effect>)
    ensures value.None? ==> r == PyNone && effects == []
    ensures value.Some? && !numpyReady ==> r == PyNull && effects == [InitNumpy]
    ensures value.Some? && numpyReady ==> r.PyArray?
    ensures r.PyArray? ==> r.nd.dtype == dtype && r.nd.dims == [|value.value|] && r.nd.data == value.value
    ensures CountOf(effects, MallocDims) == CountOf(effects, FreeDims)
    ensures CountOf(effects, MallocDims) > 0 ==> effects[|effects| - 1] == FreeDims
  {
    if value.None? {
      return PyNone, [];
    }
    effects := [InitNumpy];
    if !numpyReady {
      return PyNull, effects;
    }
    var src := value.value;
    var length := |src|;
    var dims := [length];
    effects := effects + [MallocDims, NewArray];
    var data := seq(dims[0], _ => garbage);
    var copied := GetArrayRegion(src, 0, length, data);
    effects := effects + [CopyRegion(0, length)];
    assert copied.value == src;
    effects := effects + [FreeDims];
    r := PyArray(NdArray(dtype, dims, copied.value));
  }
}
