/** The store table (src/components/ui/TableWithActions.tsx): the per-store
    share link behind the copy button and the QR code, the notice the copy
    button shows, and the file name of the downloaded QR image. */
module TableWithActions {
  import opened Wrappers
  import opened Text
  import opened Http

  /** The base URL used when the build sets none. */
  const DefaultBaseUrl: string := "https://cocacolanavidadpromo.ptm.pe"
  const CopiedPrefix: string := "🔗 Link copiado:\n"
  const ClipboardError: string := "❌ Error al copiar (Intente usar el botón de descarga)"
  const ExecCommandError: string := "❌ Error al copiar el link. No se pudo usar execCommand."
  const QrMissingError: string := "❌ Error: QR no generado en el canvas."

  /** `import.meta.env.VITE_BASE_URL || DefaultBaseUrl`. */
  function BaseUrl(configured: Option<string>): (b: string)
    ensures b != ""
    ensures configured.Some? && configured.value != "" ==> b == configured.value
    ensures configured.None? || configured.value == "" ==> b == DefaultBaseUrl
  {
    OrElse(configured, DefaultBaseUrl)
  }

  /** `${baseUrl}/${id}`: the link the copy button copies and the QR encodes. */
  function ShareUrl(base: string, id: string): (u: string)
    ensures |u| == |base| + 1 + |id|
    ensures u[..|base|] == base && u[|base|] == '/' && u[|base| + 1..] == id
  {
    base + "/" + id
  }

  /** The store id a share link carries, for a known base URL. */
  function StoreIdOf(base: string, url: string): (id: Option<string>)
    ensures id.Some? ==> url == ShareUrl(base, id.value)
  {
    if |url| > |base| && url[..|base|] == base && url[|base|] == '/' then
      assert url == url[..|base|] + "/" + url[|base| + 1..];
      Some(url[|base| + 1..])
    else None
  }

  /** The id comes back out of the link built for it. */
  lemma StoreIdRoundTrip(base: string, id: string)
    ensures StoreIdOf(base, ShareUrl(base, id)) == Some(id)
  {
  }

  /** Over one base URL, different stores get different links. */
  lemma ShareUrlInjective(base: string, x: string, y: string)
    requires ShareUrl(base, x) == ShareUrl(base, y)
    ensures x == y
  {
    assert x == ShareUrl(base, x)[|base| + 1..];
  }

  /** How the copy attempt ended: the asynchronous clipboard API resolved or
      rejected, or, without it, `execCommand('copy')` returned or threw. */
  datatype CopyOutcome = ClipboardResolved | ClipboardRejected | ExecCommandReturned | ExecCommandThrew

  /** The notice `handleCopy` shows: the copied link, or the error of the path taken. */
  function CopyNotice(base: string, id: string, outcome: CopyOutcome): (notice: string)
    ensures outcome == ClipboardResolved || outcome == ExecCommandReturned ==>
              notice == CopiedPrefix + ShareUrl(base, id)
    ensures outcome == ClipboardRejected ==> notice == ClipboardError
    ensures outcome == ExecCommandThrew ==> notice == ExecCommandError
  {
    match outcome
    case ClipboardResolved => CopiedPrefix + ShareUrl(base, id)
    case ExecCommandReturned => CopiedPrefix + ShareUrl(base, id)
    case ClipboardRejected => ClipboardError
    case ExecCommandThrew => ExecCommandError
  }

  /** `s.replace(/\s+/g, "_")`: every maximal run of whitespace, at either end
      too, becomes one underscore. */
  function CollapseSpaceRuns(s: string): string
    decreases |s|
  {
    if s == [] then []
    else if IsSpace(s[0]) then
      TrimStartShape(s[1..]);
      "_" + CollapseSpaceRuns(TrimStart(s[1..]))
    else [s[0]] + CollapseSpaceRuns(s[1..])
  }

  /** No whitespace is left. */
  lemma {:induction false} CollapseNoSpace(s: string)
    ensures NoSpace(CollapseSpaceRuns(s))
    decreases |s|
  {
    if s != [] {
      if IsSpace(s[0]) {
        TrimStartShape(s[1..]);
        CollapseNoSpace(TrimStart(s[1..]));
      } else {
        CollapseNoSpace(s[1..]);
      }
    }
  }

  /** A name without whitespace is kept as it is. */
  lemma {:induction false} CollapseKeepsSpaceFree(s: string)
    requires NoSpace(s)
    ensures CollapseSpaceRuns(s) == s
  {
    if s != [] {
      assert NoSpace(s[1..]) by {
        assert forall k :: 0 <= k < |s| - 1 ==> s[1..][k] == s[k + 1];
      }
      CollapseKeepsSpaceFree(s[1..]);
    }
  }

  /** Whitespace in front of a string that ends with other text is skipped
      without touching what follows it. */
  lemma {:induction false} TrimStartAppend(x: string, y: string)
    requires x != [] && !IsSpace(x[|x| - 1])
    ensures TrimStart(x + y) == TrimStart(x) + y
  {
    if IsSpace(x[0]) {
      assert (x + y)[1..] == x[1..] + y;
      TrimStartAppend(x[1..], y);
    }
  }

  /** The replacement works run by run: a cut right after a character that is
      not whitespace splits no run. */
  lemma {:induction false} CollapseAppend(a: string, b: string)
    requires a == [] || !IsSpace(a[|a| - 1])
    ensures CollapseSpaceRuns(a + b) == CollapseSpaceRuns(a) + CollapseSpaceRuns(b)
    decreases |a|
  {
    if a == [] {
      assert a + b == b;
    } else if IsSpace(a[0]) {
      var rest := a[1..];
      assert (a + b)[1..] == rest + b;
      TrimStartAppend(rest, b);
      TrimStartShape(rest);
      var t := TrimStart(rest);
      assert t != [] && t[|t| - 1] == a[|a| - 1];
      CollapseAppend(t, b);
      assert "_" + (CollapseSpaceRuns(t) + CollapseSpaceRuns(b))
          == ("_" + CollapseSpaceRuns(t)) + CollapseSpaceRuns(b);
    } else {
      assert (a + b)[1..] == a[1..] + b;
      CollapseAppend(a[1..], b);
    }
  }

  /** A leading run of whitespace before text becomes one underscore. */
  lemma CollapseLeadingRun(w: string, b: string)
    requires w != [] && AllSpace(w)
    requires b == [] || !IsSpace(b[0])
    ensures CollapseSpaceRuns(w + b) == "_" + CollapseSpaceRuns(b)
  {
    var tail := w[1..];
    assert (w + b)[0] == w[0];
    assert (w + b)[1..] == tail + b;
    assert AllSpace(tail) by {
      forall k | 0 <= k < |tail| ensures IsSpace(tail[k]) {
        assert tail[k] == w[k + 1];
      }
    }
    TrimStartSkipsSpace(tail, b);
    assert TrimStart(b) == b;
  }

  /** One run of whitespace between two words becomes exactly one underscore. */
  lemma CollapseRun(a: string, w: string, b: string)
    requires a == [] || !IsSpace(a[|a| - 1])
    requires w != [] && AllSpace(w)
    requires b == [] || !IsSpace(b[0])
    ensures CollapseSpaceRuns(a + w + b) == CollapseSpaceRuns(a) + "_" + CollapseSpaceRuns(b)
  {
    assert a + w + b == a + (w + b);
    CollapseAppend(a, w + b);
    CollapseLeadingRun(w, b);
  }

  /** `name.replace(/\s+/g, "_").toLowerCase()`. */
  function SafeName(name: string): (r: string)
    ensures NoSpace(r) && HasNoUpper(r)
    ensures |r| <= |name|
  {
    var collapsed := CollapseSpaceRuns(name);
    CollapseNoSpace(name);
    CollapseShorter(name);
    ToLower(collapsed)
  }

  /** Collapsing never lengthens a name. */
  lemma {:induction false} CollapseShorter(s: string)
    ensures |CollapseSpaceRuns(s)| <= |s|
    decreases |s|
  {
    if s != [] {
      if IsSpace(s[0]) {
        TrimStartShape(s[1..]);
        CollapseShorter(TrimStart(s[1..]));
      } else {
        CollapseShorter(s[1..]);
      }
    }
  }

  /** `qr-${safeName}.png`. */
  function QrFilename(name: string): (f: string)
    ensures |f| == |SafeName(name)| + 7
    ensures f[..3] == "qr-" && f[3..|f| - 4] == SafeName(name) && f[|f| - 4..] == ".png"
  {
    "qr-" + SafeName(name) + ".png"
  }

  /** Two words with whitespace between them give the lower-cased words
      joined by one underscore. */
  lemma SafeNameOfTwoWords(first: string, gap: string, second: string)
    requires NoSpace(first) && NoSpace(second) && first != [] && second != []
    requires gap != [] && AllSpace(gap)
    ensures SafeName(first + gap + second) == ToLower(first) + "_" + ToLower(second)
  {
    CollapseRun(first, gap, second);
    CollapseKeepsSpaceFree(first);
    CollapseKeepsSpaceFree(second);
    ToLowerAppend(first + "_", second);
    ToLowerAppend(first, "_");
    assert ToLower("_") == "_";
  }

  /** `handleDownloadQR`: without a rendered canvas for the store the error
      notice is shown; otherwise the image is saved under `QrFilename`. */
  function DownloadQr(canvases: set<string>, id: string, name: string): (r: Result<string, string>)
    ensures r.Failure? <==> id !in canvases
    ensures r.Failure? ==> r.error == QrMissingError
    ensures r.Success? ==> r.value == QrFilename(name)
  {
    if id !in canvases then Failure(QrMissingError) else Success(QrFilename(name))
  }
}
