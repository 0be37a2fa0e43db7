/**
  texture.js: one device texture bound to one image-like source. An image
  that is already decoded is uploaded at once; otherwise a 1x1 opaque black
  pixel is uploaded and a one-shot load handler does the real upload later.
*/
module Textures {
  import opened Wrappers
  import opened Graphics

  /** Symbolic wrap names and the device constant each one names. */
  const WRAP: map<string, string> :=
    map["clamp" := "CLAMP_TO_EDGE", "mirror" := "MIRRORED_REPEAT", "repeat" := "REPEAT"]

  /** Symbolic filter names and the device constant each one names. */
  const FILTER: map<string, string> := map["nearest" := "NEAREST", "linear" := "LINEAR"]

  /** Reading a constant off the device by its name (`gl[name]`). */
  function DeviceConstant(name: string): (r: Option<GlEnum>)
    ensures r.Some? <==> name in {"CLAMP_TO_EDGE", "MIRRORED_REPEAT", "REPEAT", "NEAREST", "LINEAR"}
  {
    if name == "CLAMP_TO_EDGE" then Some(ClampToEdge)
    else if name == "MIRRORED_REPEAT" then Some(MirroredRepeat)
    else if name == "REPEAT" then Some(Repeat)
    else if name == "NEAREST" then Some(Nearest)
    else if name == "LINEAR" then Some(Linear)
    else None
  }

  /**
    Resolves an optional symbolic name through a table: absent when the name
    is undefined, when the table has no (truthy) entry for it, and otherwise
    the device constant the entry names.
  */
  function GetProp(constants: map<string, string>, prop: Option<string>): (r: Option<GlEnum>)
    ensures r.Some? <==> prop.Some? && prop.value in constants && DeviceConstant(constants[prop.value]).Some?
    ensures r.Some? ==> r == DeviceConstant(constants[prop.value])
  {
    match prop
    case None => None
    case Some(name) =>
      if name !in constants || constants[name] == "" then None
      else DeviceConstant(constants[name])
  }

  /** The wrap table resolves exactly its three names and nothing else. */
  lemma WrapResolution(prop: Option<string>)
    ensures GetProp(WRAP, prop) ==
      if prop == Some("clamp") then Some(ClampToEdge)
      else if prop == Some("mirror") then Some(MirroredRepeat)
      else if prop == Some("repeat") then Some(Repeat)
      else None
  {
  }

  /** The filter table resolves exactly its two names and nothing else. */
  lemma FilterResolution(prop: Option<string>)
    ensures GetProp(FILTER, prop) ==
      if prop == Some("nearest") then Some(Nearest)
      else if prop == Some("linear") then Some(Linear)
      else None
  {
  }

  /** Bitwise AND of two non-negative numbers, bit by bit from the lowest. */
  function BitAnd(a: nat, b: nat): (r: nat)
    ensures r <= a && r <= b
    decreases a
  {
    if a == 0 || b == 0 then 0
    else 2 * BitAnd(a / 2, b / 2) + (a % 2) * (b % 2)
  }

  /**
    `(value & (value - 1)) == 0`, with JavaScript's `&` on the 32-bit
    two's-complement patterns of both operands (so 0 & -1 is 0). Over the
    widths and heights an image can have (below 2^32), the bit trick holds
    exactly of the powers of two, and of 0.
  */
  function IsPowerOf2(value: nat): (r: bool)
    ensures value < 0x1_0000_0000 ==> (r <==> value == 0 || exists k: nat :: Pow2(k) == value)
  {
    if 0 < value < 0x1_0000_0000 then
      PatternsBelow(value);
      BitAnd(value, value - 1) == 0
    else
      BitAnd(value % 0x1_0000_0000, (value - 1) % 0x1_0000_0000) == 0
  }

  /** Below 2^32 a positive number and its predecessor are their own 32-bit patterns. */
  lemma PatternsBelow(value: nat)
    requires 0 < value < 0x1_0000_0000
    ensures value % 0x1_0000_0000 == value && (value - 1) % 0x1_0000_0000 == value - 1
    ensures BitAnd(value, value - 1) == 0 <==> exists k: nat :: Pow2(k) == value
  {
    OwnPattern(value);
    OwnPattern(value - 1);
    AndPredecessor(value);
  }

  /** A number below 2^32 is its own 32-bit pattern. */
  lemma OwnPattern(x: int)
    requires 0 <= x < 0x1_0000_0000
    ensures x % 0x1_0000_0000 == x
  {
  }

  function Pow2(k: nat): (r: nat)
    ensures r >= 1
  {
    if k == 0 then 1 else 2 * Pow2(k - 1)
  }

  lemma {:induction false} AndSelf(a: nat)
    ensures BitAnd(a, a) == a
    decreases a
  {
    if a != 0 {
      AndSelf(a / 2);
    }
  }

  lemma {:induction false} Pow2Even(k: nat)
    requires k > 0
    ensures Pow2(k) % 2 == 0 && Pow2(k - 1) == Pow2(k) / 2
  {
  }

  /** One step of the AND: the lowest bits, then the rest shifted down. */
  lemma BitAndStep(a: nat, b: nat)
    requires a > 0 && b > 0
    ensures BitAnd(a, b) == 2 * BitAnd(a / 2, b / 2) + (a % 2) * (b % 2)
  {
  }

  /** An even number from 2 on is a power of two exactly when its half is. */
  lemma Pow2OfHalf(n: nat)
    requires n >= 2 && n % 2 == 0
    ensures (exists k: nat :: Pow2(k) == n) <==> (exists k: nat :: Pow2(k) == n / 2)
  {
    if exists k: nat :: Pow2(k) == n / 2 {
      var k: nat :| Pow2(k) == n / 2;
      assert Pow2(k + 1) == n;
    }
    if exists k: nat :: Pow2(k) == n {
      var k: nat :| Pow2(k) == n;
      assert k > 0;
      Pow2Even(k);
      assert Pow2(k - 1) == n / 2;
    }
  }

  /** For a positive n, `n & (n - 1)` vanishes exactly when n is a power of two. */
  lemma {:induction false} AndPredecessor(n: nat)
    requires n > 0
    ensures BitAnd(n, n - 1) == 0 <==> exists k: nat :: Pow2(k) == n
    decreases n
  {
    if n == 1 {
      assert BitAnd(n, n - 1) == 0 && Pow2(0) == n;
    } else if n % 2 == 1 {
      BitAndStep(n, n - 1);
      assert (n - 1) / 2 == n / 2 && (n - 1) % 2 == 0;
      AndSelf(n / 2);
      assert BitAnd(n, n - 1) == n - 1;
      NotPow2Odd(n);
    } else {
      BitAndStep(n, n - 1);
      assert (n - 1) / 2 == n / 2 - 1 && n % 2 == 0;
      assert BitAnd(n, n - 1) == 2 * BitAnd(n / 2, n / 2 - 1);
      AndPredecessor(n / 2);
      Pow2OfHalf(n);
    }
  }

  /** The upload procedure, `update`: bind, upload, maybe mipmap, then parameters. */
  function UploadCommands(texture: Handle, image: ImageInfo, flipY: Option<bool>,
                          wrapS: Option<GlEnum>, wrapT: Option<GlEnum>, filter: Option<GlEnum>): seq<Cmd>
  {
    [BindTexture(texture)]
    + (if flipY == Some(true) then [PixelStoreFlipY] else [])
    + [TexImage2D(Element(image))]
    + (if IsPowerOf2(image.width) && IsPowerOf2(image.height) then [GenerateMipmap] else [])
    + [TexParameter(TextureWrapS, wrapS.GetOr(ClampToEdge)),
       TexParameter(TextureWrapT, wrapT.GetOr(ClampToEdge)),
       TexParameter(TextureMinFilter, filter.GetOr(Linear))]
  }

  /**
    The order of an upload: bind first, then the row flip when asked for,
    then the image at index `j`, then the mipmap when both sides pass the
    power-of-two test, and WRAP_S, WRAP_T and MIN_FILTER last, each falling
    back to the device default when its name did not resolve.
  */
  lemma UploadOrder(texture: Handle, image: ImageInfo, flipY: Option<bool>,
                    wrapS: Option<GlEnum>, wrapT: Option<GlEnum>, filter: Option<GlEnum>)
    ensures var cmds := UploadCommands(texture, image, flipY, wrapS, wrapT, filter);
      var j := if flipY == Some(true) then 2 else 1;
      && |cmds| >= 5
      && j < |cmds| - 3
      && cmds[..j] == [BindTexture(texture)] + (if flipY == Some(true) then [PixelStoreFlipY] else [])
      && cmds[j] == TexImage2D(Element(image))
      && cmds[j + 1..|cmds| - 3] == (if IsPowerOf2(image.width) && IsPowerOf2(image.height) then [GenerateMipmap] else [])
      && cmds[|cmds| - 3..] == [TexParameter(TextureWrapS, if wrapS.Some? then wrapS.value else ClampToEdge),
                               TexParameter(TextureWrapT, if wrapT.Some? then wrapT.value else ClampToEdge),
                               TexParameter(TextureMinFilter, if filter.Some? then filter.value else Linear)]
  {
    var s, t, f := wrapS.GetOr(ClampToEdge), wrapT.GetOr(ClampToEdge), filter.GetOr(Linear);
    var params := [TexParameter(TextureWrapS, s), TexParameter(TextureWrapT, t), TexParameter(TextureMinFilter, f)];
    var bind, upload := BindTexture(texture), TexImage2D(Element(image));
    var cmds := UploadCommands(texture, image, flipY, wrapS, wrapT, filter);
    var mip := IsPowerOf2(image.width) && IsPowerOf2(image.height);
    if flipY == Some(true) && mip {
      assert cmds == [bind, PixelStoreFlipY, upload, GenerateMipmap] + params;
    } else if flipY == Some(true) {
      assert cmds == [bind, PixelStoreFlipY, upload] + params;
    } else if mip {
      assert cmds == [bind, upload, GenerateMipmap] + params;
    } else {
      assert cmds == [bind, upload] + params;
    }
  }

  /**
    What an upload contains: a row flip exactly when `flipY` is true, a
    mipmap exactly when both sides pass the power-of-two test, no
    MAG_FILTER parameter, and no texture created or deleted.
  */
  lemma UploadContents(texture: Handle, image: ImageInfo, flipY: Option<bool>,
                       wrapS: Option<GlEnum>, wrapT: Option<GlEnum>, filter: Option<GlEnum>)
    ensures var cmds := UploadCommands(texture, image, flipY, wrapS, wrapT, filter);
      && (GenerateMipmap in cmds <==> IsPowerOf2(image.width) && IsPowerOf2(image.height))
      && (PixelStoreFlipY in cmds <==> flipY == Some(true))
      && (forall c :: c in cmds && c.TexParameter? ==> c.param != TextureMagFilter)
      && (forall c :: c in cmds ==> !c.Create? && !c.DeleteTexture?)
  {
    var s, t, f := wrapS.GetOr(ClampToEdge), wrapT.GetOr(ClampToEdge), filter.GetOr(Linear);
    var params := [TexParameter(TextureWrapS, s), TexParameter(TextureWrapT, t), TexParameter(TextureMinFilter, f)];
    var bind, upload := BindTexture(texture), TexImage2D(Element(image));
    var cmds := UploadCommands(texture, image, flipY, wrapS, wrapT, filter);
    var mip := IsPowerOf2(image.width) && IsPowerOf2(image.height);
    if flipY == Some(true) && mip {
      assert cmds == [bind, PixelStoreFlipY, upload, GenerateMipmap] + params;
    } else if flipY == Some(true) {
      assert cmds == [bind, PixelStoreFlipY, upload] + params;
    } else if mip {
      assert cmds == [bind, upload, GenerateMipmap] + params;
    } else {
      assert cmds == [bind, upload] + params;
    }
  }

  /** The three stages of an upload's log make up the upload commands. */
  lemma UploadLog(texture: Handle, image: ImageInfo, flipY: Option<bool>,
                  wrapS: Option<GlEnum>, wrapT: Option<GlEnum>, filter: Option<GlEnum>,
                  log0: seq<Cmd>, uploaded: seq<Cmd>, mipmapped: seq<Cmd>, done: seq<Cmd>)
    requires uploaded == log0 + [BindTexture(texture)] + (if flipY == Some(true) then [PixelStoreFlipY] else [])
                        + [TexImage2D(Element(image))]
    requires mipmapped == uploaded + if IsPowerOf2(image.width) && IsPowerOf2(image.height) then [GenerateMipmap] else []
    requires done == mipmapped + [TexParameter(TextureWrapS, wrapS.GetOr(ClampToEdge)),
                                  TexParameter(TextureWrapT, wrapT.GetOr(ClampToEdge)),
                                  TexParameter(TextureMinFilter, filter.GetOr(Linear))]
    ensures done == log0 + UploadCommands(texture, image, flipY, wrapS, wrapT, filter)
  {
  }

  /** The 1x1 opaque black placeholder. */
  function PlaceholderCommands(texture: Handle): seq<Cmd>
  {
    [BindTexture(texture), TexImage2D(Pixels(1, 1, [0, 0, 0, 255]))]
  }

  /** Whether the constructor uploads at once (decoded with a non-zero size, or not an image element). */
  predicate ReadyAtCreation(image: ImageInfo)
  {
    (image.complete && image.width != 0 && image.height != 0) || !image.isImage
  }

  /** Everything the constructor issues for a texture with handle `texture`. */
  function CreationCommands(texture: Handle, image: ImageInfo, flipY: Option<bool>,
                            wrapS: Option<GlEnum>, wrapT: Option<GlEnum>, filter: Option<GlEnum>): seq<Cmd>
  {
    [Create(TextureObject, texture)]
    + if ReadyAtCreation(image) then UploadCommands(texture, image, flipY, wrapS, wrapT, filter)
      else PlaceholderCommands(texture)
  }

  /** The image once its load event has fired. */
  function Loaded(image: ImageInfo, width: nat, height: nat): ImageInfo
  {
    image.(complete := true, width := width, height := height)
  }

  class Texture {
    const device: Device
    /** The device texture this object owns. */
    const texture: Handle
    /** The source image as this texture last saw it. */
    var image: ImageInfo
    const flipY: Option<bool>
    const wrapS: Option<GlEnum>
    const wrapT: Option<GlEnum>
    const filter: Option<GlEnum>
    /** Whether the one-shot load handler is still registered on the image. */
    var listening: bool

    constructor (device: Device, image: ImageInfo, wrapS: Option<string>, wrapT: Option<string>,
                 filter: Option<string>, flipY: Option<bool>)
      modifies device
      ensures this.device == device && this.image == image && this.flipY == flipY
      ensures this.wrapS == GetProp(WRAP, wrapS) && this.wrapT == GetProp(WRAP, wrapT)
      ensures this.filter == GetProp(FILTER, filter)
      ensures texture == old(device.nextHandle) && device.nextHandle == texture + 1
      ensures listening == !ReadyAtCreation(image)
      ensures device.log == old(device.log)
                            + CreationCommands(texture, image, flipY, this.wrapS, this.wrapT, this.filter)
    {
      var h := device.Allocate(TextureObject);
      this.device := device;
      this.texture := h;
      this.image := image;
      this.flipY := flipY;
      this.wrapS := GetProp(WRAP, wrapS);
      this.wrapT := GetProp(WRAP, wrapT);
      this.filter := GetProp(FILTER, filter);
      this.listening := !ReadyAtCreation(image);
      new;
      if ReadyAtCreation(image) {
        Update();
      } else {
        Placeholder();
      }
      AppendAssociates(old(device.log), [Create(TextureObject, h)],
                       if ReadyAtCreation(image) then UploadCommands(h, image, flipY, this.wrapS, this.wrapT, this.filter)
                       else PlaceholderCommands(h));
    }

    /** Uploads the 1x1 opaque black placeholder until the image has loaded. */
    method Placeholder()
      modifies device
      ensures device.nextHandle == old(device.nextHandle)
      ensures device.log == old(device.log) + PlaceholderCommands(texture)
    {
      device.Issue(BindTexture(texture));
      device.Issue(TexImage2D(Pixels(1, 1, [0, 0, 0, 255])));
    }

    /** The upload procedure for the image as it is now. */
    method Update()
      modifies device
      ensures device.nextHandle == old(device.nextHandle)
      ensures device.log == old(device.log) + UploadCommands(texture, image, flipY, wrapS, wrapT, filter)
    {
      device.Issue(BindTexture(texture));
      if flipY == Some(true) {
        device.Issue(PixelStoreFlipY);
      }
      device.Issue(TexImage2D(Element(image)));
      ghost var uploaded := device.log;
      if IsPowerOf2(image.width) && IsPowerOf2(image.height) {
        device.Issue(GenerateMipmap);
      }
      ghost var mipmapped := device.log;
      device.Issue(TexParameter(TextureWrapS, wrapS.GetOr(ClampToEdge)));
      device.Issue(TexParameter(TextureWrapT, wrapT.GetOr(ClampToEdge)));
      device.Issue(TexParameter(TextureMinFilter, filter.GetOr(Linear)));
      UploadLog(texture, image, flipY, wrapS, wrapT, filter, old(device.log), uploaded, mipmapped, device.log);
    }

    /**
      The image's load event: the image is now decoded at the given size; a
      registered handler removes itself and then runs the upload procedure.
    */
    method FireLoad(width: nat, height: nat)
      modifies this, device
      ensures image == Loaded(old(image), width, height) && !listening
      ensures device.nextHandle == old(device.nextHandle)
      ensures device.log == old(device.log)
        + if old(listening) then UploadCommands(texture, image, flipY, wrapS, wrapT, filter) else []
    {
      image := Loaded(image, width, height);
      if listening {
        listening := false;
        Update();
      }
    }

    /** Releases the owned texture; a registered load handler stays registered. */
    method Destroy()
      modifies device
      ensures device.nextHandle == old(device.nextHandle)
      ensures device.log == old(device.log) + [DeleteTexture(texture)]
    {
      device.Issue(DeleteTexture(texture));
    }
  }

  /**
    An image that is not ready: the placeholder goes up at once, the first
    load event uploads the decoded image, a second one issues nothing.
  */
  method DeferredLoadScenario(image: ImageInfo, width: nat, height: nat, wrap: Option<string>, flipY: Option<bool>)
    returns (created: seq<Cmd>, firstLoad: seq<Cmd>, secondLoad: seq<Cmd>)
    requires !ReadyAtCreation(image)
    ensures created == [Create(TextureObject, 0), BindTexture(0), TexImage2D(Pixels(1, 1, [0, 0, 0, 255]))]
    ensures firstLoad == UploadCommands(0, Loaded(image, width, height), flipY,
                                        GetProp(WRAP, wrap), GetProp(WRAP, wrap), None)
    ensures secondLoad == []
  {
    var device := new Device();
    var t := new Texture(device, image, wrap, wrap, None, flipY);
    created := device.log;
    t.FireLoad(width, height);
    firstLoad := device.log[|created|..];
    var before := device.log;
    t.FireLoad(width, height);
    secondLoad := device.log[|before|..];
  }

  /** An image that is ready is uploaded by the constructor, with no placeholder and no handler. */
  method ReadyImageScenario(image: ImageInfo, filter: Option<string>)
    returns (created: seq<Cmd>, laterLoad: seq<Cmd>)
    requires ReadyAtCreation(image)
    ensures created == [Create(TextureObject, 0)] + UploadCommands(0, image, None, None, None, GetProp(FILTER, filter))
    ensures TexImage2D(Pixels(1, 1, [0, 0, 0, 255])) !in created
    ensures laterLoad == []
  {
    var device := new Device();
    var t := new Texture(device, image, None, None, filter, None);
    created := device.log;
    t.FireLoad(image.width, image.height);
    laterLoad := device.log[|created|..];
  }

  /**
    Destroying a texture whose image has not loaded leaves the handler in
    place: the later load binds and uploads into the released handle.
  */
  method DestroyBeforeLoadScenario(image: ImageInfo, width: nat, height: nat)
    returns (log: seq<Cmd>, deletedAt: nat, reboundAt: nat)
    requires !ReadyAtCreation(image)
    ensures deletedAt < reboundAt < |log|
    ensures log[deletedAt] == DeleteTexture(0) && log[reboundAt] == BindTexture(0)
    ensures TexImage2D(Element(Loaded(image, width, height))) in log[reboundAt..]
  {
    var device := new Device();
    var t := new Texture(device, image, None, None, None, None);
    t.Destroy();
    deletedAt := |device.log| - 1;
    t.FireLoad(width, height);
    log := device.log;
    reboundAt := deletedAt + 1;
    assert log[reboundAt..] == UploadCommands(0, Loaded(image, width, height), None, None, None, None);
  }

  /** Every power of two that fits in 32 bits gets a mipmap chain. */
  lemma PowerOf2Mipmaps(k: nat)
    requires Pow2(k) < 0x1_0000_0000
    ensures IsPowerOf2(Pow2(k))
  {
  }

  /** An odd number above 1 is no power of two. */
  lemma NotPow2Odd(n: nat)
    requires n % 2 == 1 && n > 1
    ensures forall k: nat :: Pow2(k) != n
  {
    forall k: nat
      ensures Pow2(k) != n
    {
      if k > 0 {
        assert Pow2(k) == 2 * Pow2(k - 1);
      }
    }
  }

  /** Twice a number that is no power of two is none either. */
  lemma NotPow2Double(n: nat)
    requires forall k: nat :: Pow2(k) != n
    ensures forall k: nat :: Pow2(k) != 2 * n
  {
    forall k: nat
      ensures Pow2(k) != 2 * n
    {
      if k > 0 {
        assert Pow2(k) == 2 * Pow2(k - 1);
      }
    }
  }

  /**
    An odd number above 1 times a power of two gets no mipmap chain: 300
    (75 times 4) and 200 (25 times 8) among them.
  */
  lemma {:induction false} OddMultipleNoMipmaps(m: nat, k: nat)
    requires m % 2 == 1 && m > 1 && m * Pow2(k) < 0x1_0000_0000
    ensures !IsPowerOf2(m * Pow2(k))
  {
    var v := m * Pow2(k);
    NotPow2OddMultiple(m, k);
    assert !exists j: nat :: Pow2(j) == v;
  }

  lemma {:induction false} NotPow2OddMultiple(m: nat, k: nat)
    requires m % 2 == 1 && m > 1
    ensures m * Pow2(k) > 1
    ensures forall j: nat :: Pow2(j) != m * Pow2(k)
  {
    if k == 0 {
      NotPow2Odd(m);
    } else {
      NotPow2OddMultiple(m, k - 1);
      NotPow2Double(m * Pow2(k - 1));
      assert m * Pow2(k) == 2 * (m * Pow2(k - 1));
    }
  }
}
