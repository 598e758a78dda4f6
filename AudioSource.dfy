/** Choosing the playback source for a vocabulary card's `audio_url`, the rule
    shared by the vocabulary card and the flashcard view. Playing the audio and
    the error toast are left to the caller; the source string (or the error) is
    the result. */
module AudioSource {

  import opened Wrappers
  import opened Strings
  import opened UriEncoding

  /** The "no audio link" error shown instead of playing. */
  datatype AudioError = MissingAudioLink

  /** Same-origin route that fetches external audio on the server. */
  const ProxyPrefix: string := "/api/proxy-audio?url="

  /** External URLs are recognised by a case-sensitive "http" prefix, so both
      "http://" and "https://" count and "HTTP://" does not. */
  predicate IsExternal(url: string)
  {
    StartsWith(url, "http")
  }

  /** `audioUrl` is `None` for a null or missing field. */
  function ResolveAudioSource(audioUrl: Option<string>): (r: Result<string, AudioError>)
    ensures r.Failure? <==> audioUrl == None || audioUrl == Some("")
    ensures audioUrl.Some? && IsExternal(audioUrl.value) ==>
              r == Success(ProxyPrefix + EncodeUriComponent(audioUrl.value))
    ensures audioUrl.Some? && audioUrl.value != "" && !IsExternal(audioUrl.value) ==>
              r == Success(audioUrl.value)
  {
    match audioUrl
    case None => Failure(MissingAudioLink)
    case Some(url) =>
      if url == "" then Failure(MissingAudioLink)
      else if IsExternal(url) then Success(ProxyPrefix + EncodeUriComponent(url))
      else Success(url)
  }

  /** For an external URL the proxy receives exactly the original URL: the
      source is the proxy route followed by a single query value that contains
      no query delimiter and decodes back to the URL. */
  lemma ProxiedSourceCarriesUrl(url: string)
    requires IsExternal(url)
    ensures ResolveAudioSource(Some(url)).Success?
    ensures var src := ResolveAudioSource(Some(url)).value;
            && StartsWith(src, ProxyPrefix)
            && DecodeUriComponent(src[|ProxyPrefix|..]) == Some(url)
            && forall i :: |ProxyPrefix| <= i < |src| ==> src[i] !in "&=?#+ "
  {
    var src := ProxyPrefix + EncodeUriComponent(url);
    assert src[|ProxyPrefix|..] == EncodeUriComponent(url);
    DecodeEncode(url);
    EncodedHasNoDelimiters(url);
    forall i | |ProxyPrefix| <= i < |src| ensures src[i] !in "&=?#+ " {
      assert src[i] == EncodeUriComponent(url)[i - |ProxyPrefix|];
    }
  }

  /** The prefix test is case-sensitive. */
  lemma UpperCaseSchemeIsNotProxied()
    ensures ResolveAudioSource(Some("HTTP://a")) == Success("HTTP://a")
    ensures ResolveAudioSource(Some("/audio/a.mp3")) == Success("/audio/a.mp3")
  {
    assert !IsExternal("HTTP://a") by {
      assert "HTTP://a"[..4][0] == 'H';
    }
    assert !IsExternal("/audio/a.mp3") by {
      assert "/audio/a.mp3"[..4][0] == '/';
    }
  }
}
